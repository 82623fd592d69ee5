/** The row collections: the ordered rows of one worksheet tab, read from the
    tab, validated as a batch behind size gates, and cross-checked against
    the other tab (role sirets against establishment sirets, establishment
    sirets against admin roles). */
module Collections {
  import opened Values
  import opened RowErrors
  import opened Rows

  /** The row-count gates of batch validation. */
  const MinCreateRows := 10
  const MinUpdateRows := 3
  const MaxRows := 500

  /** No row object occurs twice in a list. */
  predicate DistinctRows<T(==)>(rs: seq<T>)
  {
    forall i, j :: 0 <= i < j < |rs| ==> rs[i] != rs[j]
  }

  /** `chain.from_iterable`: the lists one after the other. */
  function Flatten(xss: seq<seq<RowError>>): seq<RowError>
  {
    if xss == [] then [] else xss[0] + Flatten(xss[1..])
  }

  /** An error is in the flattened list exactly when it is in one of the lists. */
  lemma {:induction false} FlattenMembers(xss: seq<seq<RowError>>, e: RowError)
    ensures e in Flatten(xss) <==> exists i :: 0 <= i < |xss| && e in xss[i]
  {
    if xss != [] {
      FlattenMembers(xss[1..], e);
      assert forall i :: 1 <= i < |xss| ==> xss[i] == xss[1..][i - 1];
      if e in Flatten(xss[1..]) {
        var i :| 0 <= i < |xss[1..]| && e in xss[1..][i];
        assert e in xss[i + 1];
      }
    }
  }

  /** The positions `from_worksheet` keeps among the first `n` rows read:
      past the first (the header), in order, and only the rows that are not
      all empty. */
  function Kept(ws: seq<Raw>, n: nat): (ks: seq<nat>)
    requires n <= |ws|
    ensures forall k :: 0 <= k < |ks| ==> 1 <= ks[k] < n
  {
    if n <= 1 then [] else Kept(ws, n - 1) + (if AllFalsy(ws[n - 1]) then [] else [n - 1])
  }

  /** The kept positions increase, and a position past the header is kept
      exactly when its row is not all empty. */
  lemma {:induction false} KeptSpec(ws: seq<Raw>, n: nat)
    requires n <= |ws|
    ensures forall a, b :: 0 <= a < b < |Kept(ws, n)| ==> Kept(ws, n)[a] < Kept(ws, n)[b]
    ensures forall p :: 1 <= p < n ==> (p in Kept(ws, n) <==> !AllFalsy(ws[p]))
  {
    if n > 1 {
      KeptSpec(ws, n - 1);
    }
  }

  /** What `from_worksheet` collects among the first `n` rows, given the
      outcome `os[q]` of reading row `q`: the header row (position 0) is
      skipped, a row read as nothing is dropped, and the first row that
      raises stops the reading. */
  function Collect<D>(os: seq<Outcome<Option<D>>>, n: nat): Outcome<seq<D>>
    requires n <= |os|
  {
    if n <= 1 then Ok([])
    else match Collect(os, n - 1)
      case Raised(x) => Raised(x)
      case Ok(ds) =>
        match os[n - 1]
        case Raised(x) => Raised(x)
        case Ok(None) => Ok(ds)
        case Ok(Some(d)) => Ok(ds + [d])
  }

  /** The reading succeeds exactly when no row past the header raises. */
  lemma {:induction false} CollectOk<D>(os: seq<Outcome<Option<D>>>, n: nat)
    requires n <= |os|
    ensures Collect(os, n).Ok? <==> forall q :: 1 <= q < n ==> os[q].Ok?
  {
    if n > 1 {
      CollectOk(os, n - 1);
    }
  }

  /** Nothing is read from the header row. */
  lemma CollectStart<D>(os: seq<Outcome<Option<D>>>)
    requires 1 <= |os|
    ensures Collect(os, 0) == Ok([]) && Collect(os, 1) == Ok([])
  {
  }

  /** Reading one more row extends a successful reading by what that row yields. */
  lemma CollectStep<D>(os: seq<Outcome<Option<D>>>, p: nat, ds: seq<D>)
    requires 1 <= p < |os| && Collect(os, p) == Ok(ds)
    ensures os[p].Raised? ==> Collect(os, p + 1) == Raised(os[p].exc)
    ensures os[p] == Ok(None) ==> Collect(os, p + 1) == Ok(ds)
    ensures os[p].Ok? && os[p].value.Some? ==> Collect(os, p + 1) == Ok(ds + [os[p].value.value])
  {
  }

  /** When a row is read as nothing exactly when it is all empty, a
      successful reading holds, in order, what was read from each kept row. */
  lemma {:induction false} CollectRows<D>(ws: seq<Raw>, os: seq<Outcome<Option<D>>>, n: nat)
    requires n <= |os| == |ws|
    requires forall p :: 1 <= p < |ws| ==> (os[p] == Ok(None) <==> AllFalsy(ws[p]))
    requires Collect(os, n).Ok?
    ensures |Collect(os, n).value| == |Kept(ws, n)|
    ensures forall k :: 0 <= k < |Kept(ws, n)| ==> os[Kept(ws, n)[k]] == Ok(Some(Collect(os, n).value[k]))
  {
    if n > 1 {
      assert Collect(os, n - 1).Ok?;
      CollectRows(ws, os, n - 1);
      var ds, ks := Collect(os, n - 1).value, Kept(ws, n - 1);
      if AllFalsy(ws[n - 1]) {
        assert Kept(ws, n) == ks && Collect(os, n).value == ds;
      } else {
        var d := os[n - 1].value.value;
        assert Kept(ws, n) == ks + [n - 1] && Collect(os, n).value == ds + [d];
      }
    }
  }

  // ---------------------------------------------------------------------
  // Establishment rows (create)

  function CreateErrors(rs: seq<EtabCreateRow>): (es: seq<seq<RowError>>)
    reads set r | r in rs
    ensures |es| == |rs| && forall j :: 0 <= j < |rs| ==> es[j] == rs[j].errors
  {
    seq(|rs|, j requires 0 <= j < |rs| reads set r | r in rs => rs[j].errors)
  }

  /** `ps[j]` is the pass that row `rs[j]`'s `validate` makes from the errors `olds[j]`. */
  ghost predicate CreatePassesFor(ps: seq<Pass>, olds: seq<seq<RowError>>, rs: seq<EtabCreateRow>,
                                  emailOk: string -> bool)
  {
    && |ps| == |olds| == |rs|
    && forall j {:trigger RunFrom(olds[j], CreateTests(rs[j].data, emailOk), 0)} :: 0 <= j < |rs| ==>
         ps[j] == RunFrom(olds[j], CreateTests(rs[j].data, emailOk), 0)
  }

  ghost method CreatePasses(olds: seq<seq<RowError>>, rs: seq<EtabCreateRow>, emailOk: string -> bool)
    returns (ps: seq<Pass>)
    requires |olds| == |rs|
    ensures CreatePassesFor(ps, olds, rs, emailOk)
  {
    ps := seq(|rs|, j requires 0 <= j < |rs| => RunFrom(olds[j], CreateTests(rs[j].data, emailOk), 0));
  }

  /** `row.validate()` on row `i` of a list whose passes are known. */
  method ValidateCreateRow(r: EtabCreateRow, emailOk: string -> bool, ghost i: nat, ghost rs: seq<EtabCreateRow>,
                           ghost olds: seq<seq<RowError>>, ghost ps: seq<Pass>) returns (exc: Option<Exc>)
    requires CreatePassesFor(ps, olds, rs, emailOk) && i < |rs| && r == rs[i] && r.errors == olds[i]
    modifies r
    ensures r.errors == ps[i].errors && exc == ps[i].raised && r.validated == (old(r.validated) || exc.None?)
  {
    assert ps[i] == RunFrom(olds[i], CreateTests(rs[i].data, emailOk), 0);
    exc := r.Validate(emailOk);
  }

  /** One turn of the `from_worksheet` loop, on row `p` of the worksheet:
      `EtabCreateRow.from_dict(idx, raw)`, and the row object built from its
      result appended to `built`, the rows so far (whose cells are `datas`);
      or the whole reading raises. */
  method ReadEtabCreateRow(idx: int, raw: Raw, built: seq<EtabCreateRow>, ghost os: seq<Outcome<Option<CreateFields>>>,
                           ghost p: nat, ghost datas: seq<CreateFields>)
    returns (o: Outcome<seq<EtabCreateRow>>, ghost datas': seq<CreateFields>)
    requires WellKinded(raw, CreateScalarKeys, ListKeys)
    requires 1 <= p < |os| && idx == p + 1 && os[p] == CreateFromDict(idx, raw) && Collect(os, p) == Ok(datas)
    requires |built| == |datas| && DistinctRows(built)
    requires forall k :: 0 <= k < |built| ==>
               built[k].errors == [] && !built[k].validated && built[k].data == datas[k]
    ensures o.Raised? ==> Collect(os, |os|).Raised?
    ensures o.Ok? ==> Collect(os, p + 1) == Ok(datas') && |o.value| == |datas'| && DistinctRows(o.value)
    ensures o.Ok? ==> forall k :: 0 <= k < |o.value| ==>
              o.value[k].errors == [] && !o.value[k].validated && o.value[k].data == datas'[k]
    ensures o.Ok? ==> forall k :: 0 <= k < |o.value| ==> (k < |built| && o.value[k] == built[k]) || fresh(o.value[k])
  {
    CollectStep(os, p, datas);
    var f := CreateFromDict(idx, raw);
    match f
    case Raised(x) =>
      CollectOk(os, |os|);
      o, datas' := Raised(x), datas;
    case Ok(None) =>
      o, datas' := Ok(built), datas;
    case Ok(Some(d)) =>
      var row := new EtabCreateRow(d);
      o, datas' := Ok(built + [row]), datas + [d];
  }

  /** The outcome of `EtabCreateRow.from_dict` on each row of the worksheet, the
      row at position `p` numbered `p + 1`; the header row is not read. */
  function CreateReads(ws: seq<Raw>): (os: seq<Outcome<Option<CreateFields>>>)
    requires forall p :: 1 <= p < |ws| ==> WellKinded(ws[p], CreateScalarKeys, ListKeys)
    ensures |os| == |ws| && forall p :: 1 <= p < |ws| ==> os[p] == CreateFromDict(p + 1, ws[p])
  {
    seq(|ws|, p requires 0 <= p < |ws| => if p == 0 then Ok(None) else CreateFromDict(p + 1, ws[p]))
  }

  /** `from_worksheet` raises exactly when the `from_dict` of some row past
      the header raises; otherwise its rows are built from the `from_dict`
      result of each row that is not all empty, in order, numbered by
      position. */
  lemma CreateWorksheetRows(ws: seq<Raw>)
    requires forall p :: 1 <= p < |ws| ==> WellKinded(ws[p], CreateScalarKeys, ListKeys)
    ensures Collect(CreateReads(ws), |ws|).Ok? <==> forall q :: 1 <= q < |ws| ==> CreateFromDict(q + 1, ws[q]).Ok?
    ensures Collect(CreateReads(ws), |ws|).Ok? ==>
              && |Collect(CreateReads(ws), |ws|).value| == |Kept(ws, |ws|)|
              && forall k :: 0 <= k < |Kept(ws, |ws|)| ==>
                   && CreateFromDict(Kept(ws, |ws|)[k] + 1, ws[Kept(ws, |ws|)[k]]) == Ok(Some(Collect(CreateReads(ws), |ws|).value[k]))
                   && Collect(CreateReads(ws), |ws|).value[k].index == Kept(ws, |ws|)[k] + 1
  {
    var os: seq<Outcome<Option<CreateFields>>> := CreateReads(ws);
    CollectOk(os, |ws|);
    if Collect(os, |ws|).Ok? {
      forall p | 1 <= p < |ws|
        ensures os[p] == Ok(None) <==> AllFalsy(ws[p])
      {
        CreateFromDictSpec(p + 1, ws[p]);
      }
      CollectRows(ws, os, |ws|);
      forall k | 0 <= k < |Kept(ws, |ws|)|
        ensures Collect(os, |ws|).value[k].index == Kept(ws, |ws|)[k] + 1
      {
        CreateFromDictSpec(Kept(ws, |ws|)[k] + 1, ws[Kept(ws, |ws|)[k]]);
      }
    }
  }

  class EtabCreateRows {
    var header: Option<EtabCreateRow>
    var rows: seq<EtabCreateRow>
    var isValid: bool
    var hasEnoughRows: bool
    var hasTooManyRows: bool

    constructor (rs: seq<EtabCreateRow>)
      ensures header.None? && rows == rs && !isValid && hasEnoughRows && !hasTooManyRows
    {
      header, rows := None, rs;
      isValid, hasEnoughRows, hasTooManyRows := false, true, false;
    }

    predicate Valid()
      reads this
    {
      DistinctRows(rows)
    }

    /** `append`: the first row appended becomes the header, the others are
        added at the end. */
    method Append(row: EtabCreateRow)
      modifies this
      ensures old(header).None? ==> header == Some(row) && rows == old(rows)
      ensures old(header).Some? ==> header == old(header) && rows == old(rows) + [row]
      ensures isValid == old(isValid) && hasEnoughRows == old(hasEnoughRows) &&
              hasTooManyRows == old(hasTooManyRows)
      ensures old(Valid()) && row !in old(rows) ==> Valid()
    {
      if header.None? {
        header := Some(row);
      } else {
        rows := rows + [row];
      }
    }

    /** `sirets`: the distinct non-empty sirets of the rows. */
    function Sirets(): (s: set<string>)
      reads this
      ensures forall x :: x in s <==> exists i :: 0 <= i < |rows| && rows[i].data.siret == Some(x) && x != ""
    {
      set i | 0 <= i < |rows| && TextTruthy(rows[i].data.siret) :: rows[i].data.siret.value
    }

    /** `get_errors`: the rows' errors, row after row. */
    function GetErrors(): (es: seq<RowError>)
      reads this, set r | r in rows
    {
      Flatten(CreateErrors(rows))
    }

    /** Batch validation: `isValid` is set first; a list shorter than the
        minimum or longer than the maximum only sets its flag and touches no
        row; otherwise the rows are validated in order, stopping at the first
        one that raises (at `stop`), and `isValid` says whether every row
        validated to the end came out without errors. `passes[i]` is the pass
        row `i`'s own `validate` makes. */
    method Validate(emailOk: string -> bool) returns (exc: Option<Exc>, ghost stop: nat, ghost passes: seq<Pass>)
      requires Valid()
      modifies this, rows
      ensures rows == old(rows) && header == old(header)
      ensures CreatePassesFor(passes, old(CreateErrors(rows)), rows, emailOk)
      ensures stop <= |rows|
      ensures isValid <==> forall i :: 0 <= i < stop ==> rows[i].errors == []
      ensures |rows| < MinCreateRows ==> !hasEnoughRows && hasTooManyRows == old(hasTooManyRows)
      ensures MinCreateRows <= |rows| ==> hasEnoughRows == old(hasEnoughRows)
      ensures MinCreateRows <= |rows| && |rows| > MaxRows ==> hasTooManyRows
      ensures |rows| < MinCreateRows || |rows| > MaxRows ==>
                exc.None? && stop == 0 &&
                forall i :: 0 <= i < |rows| ==>
                  rows[i].errors == old(rows[i].errors) && rows[i].validated == old(rows[i].validated)
      ensures MinCreateRows <= |rows| <= MaxRows ==>
                && hasTooManyRows == old(hasTooManyRows)
                && (forall i :: 0 <= i < stop ==> passes[i].raised.None?)
                && (stop < |rows| ==> exc == passes[stop].raised && exc.Some?)
                && (stop == |rows| ==> exc.None?)
                && (forall i :: 0 <= i <= stop && i < |rows| ==>
                      rows[i].errors == passes[i].errors &&
                      rows[i].validated == (old(rows[i].validated) || i < stop))
                && (forall i :: stop < i < |rows| ==>
                      rows[i].errors == old(rows[i].errors) && rows[i].validated == old(rows[i].validated))
    {
      ghost var olds := CreateErrors(rows);
      passes := CreatePasses(olds, rows, emailOk);
      isValid := true;
      if |rows| < MinCreateRows {
        hasEnoughRows := false;
        return None, 0, passes;
      }
      if |rows| > MaxRows {
        hasTooManyRows := true;
        return None, 0, passes;
      }
      exc, stop, isValid := ValidateEach(rows, emailOk, olds, passes);
    }

    /** The loop of `validate`: each row in turn, until one raises (at
        `stop`); `valid` says whether every row validated to the end came out
        without errors. */
    static method ValidateEach(rs: seq<EtabCreateRow>, emailOk: string -> bool, ghost olds: seq<seq<RowError>>, ghost passes: seq<Pass>)
      returns (exc: Option<Exc>, ghost stop: nat, valid: bool)
      requires DistinctRows(rs) && CreatePassesFor(passes, olds, rs, emailOk)
      requires forall j :: 0 <= j < |rs| ==> rs[j].errors == olds[j]
      modifies rs
      ensures stop <= |rs|
      ensures valid <==> forall i :: 0 <= i < stop ==> rs[i].errors == []
      ensures forall i :: 0 <= i < stop ==> passes[i].raised.None?
      ensures stop < |rs| ==> exc == passes[stop].raised && exc.Some?
      ensures stop == |rs| ==> exc.None?
      ensures forall i :: 0 <= i <= stop && i < |rs| ==>
                rs[i].errors == passes[i].errors && rs[i].validated == (old(rs[i].validated) || i < stop)
      ensures forall i :: stop < i < |rs| ==>
                rs[i].errors == olds[i] && rs[i].validated == old(rs[i].validated)
    {
      valid := true;
      var i := 0;
      exc := None;
      while i < |rs|
        invariant 0 <= i <= |rs|
        invariant forall j :: 0 <= j < i ==> passes[j].raised.None?
        invariant forall j :: 0 <= j < i ==> rs[j].errors == passes[j].errors && rs[j].validated
        invariant forall j :: i <= j < |rs| ==>
                    rs[j].errors == olds[j] && rs[j].validated == old(rs[j].validated)
        invariant valid <==> forall j :: 0 <= j < i ==> rs[j].errors == []
        invariant exc.None?
      {
        var e := ValidateCreateRow(rs[i], emailOk, i, rs, olds, passes);
        if e.Some? {
          exc := e;
          break;
        }
        if rs[i].IsValid() == Ok(false) {
          valid := false;
        }
        i := i + 1;
      }
      stop := i;
    }

    /** `validate_have_admin`: each row in turn gets a `siret_has_no_admin`
        error when its siret is not an admin siret, and then has its
        `is_valid` read, which raises on a row that is still not validated
        (at `stop`). `isValid` can only go from true to false. */
    method ValidateHaveAdmin(adminSirets: set<string>) returns (exc: Option<Exc>, ghost stop: nat)
      requires Valid()
      modifies this, rows
      ensures rows == old(rows) && header == old(header)
      ensures hasEnoughRows == old(hasEnoughRows) && hasTooManyRows == old(hasTooManyRows)
      ensures stop <= |rows|
      ensures forall i :: 0 <= i < stop ==> old(rows[i].validated) || !In(rows[i].data.siret, adminSirets)
      ensures stop < |rows| ==>
                !old(rows[stop].validated) && In(rows[stop].data.siret, adminSirets) && exc == Some(NotValidated)
      ensures stop == |rows| ==> exc.None?
      ensures forall i :: 0 <= i <= stop && i < |rows| ==>
                && rows[i].errors == old(rows[i].errors) +
                     (if In(rows[i].data.siret, adminSirets) then [] else [NoAdminError(rows[i].data.index, rows[i].data.siret)])
                && rows[i].validated == (old(rows[i].validated) || !In(rows[i].data.siret, adminSirets))
      ensures forall i :: stop < i < |rows| ==>
                rows[i].errors == old(rows[i].errors) && rows[i].validated == old(rows[i].validated)
      ensures isValid <==> old(isValid) && forall i :: 0 <= i < stop ==> rows[i].errors == []
    {
      var valid;
      exc, stop, valid := HaveAdminEach(rows, adminSirets);
      isValid := isValid && valid;
    }

    /** The loop of `validate_have_admin`; `valid` says whether every row it
        read `is_valid` of came out without errors. */
    static method HaveAdminEach(rs: seq<EtabCreateRow>, adminSirets: set<string>)
      returns (exc: Option<Exc>, ghost stop: nat, valid: bool)
      requires DistinctRows(rs)
      modifies rs
      ensures stop <= |rs|
      ensures forall i :: 0 <= i < stop ==> old(rs[i].validated) || !In(rs[i].data.siret, adminSirets)
      ensures stop < |rs| ==>
                !old(rs[stop].validated) && In(rs[stop].data.siret, adminSirets) && exc == Some(NotValidated)
      ensures stop == |rs| ==> exc.None?
      ensures forall i :: 0 <= i <= stop && i < |rs| ==>
                && rs[i].errors == old(rs[i].errors) +
                     (if In(rs[i].data.siret, adminSirets) then [] else [NoAdminError(rs[i].data.index, rs[i].data.siret)])
                && rs[i].validated == (old(rs[i].validated) || !In(rs[i].data.siret, adminSirets))
      ensures forall i :: stop < i < |rs| ==>
                rs[i].errors == old(rs[i].errors) && rs[i].validated == old(rs[i].validated)
      ensures valid <==> forall i :: 0 <= i < stop ==> rs[i].errors == []
    {
      valid := true;
      var i := 0;
      exc := None;
      while i < |rs|
        invariant 0 <= i <= |rs|
        invariant forall j :: 0 <= j < i ==> old(rs[j].validated) || !In(rs[j].data.siret, adminSirets)
        invariant forall j :: 0 <= j < i ==>
                    && rs[j].errors == old(rs[j].errors) +
                         (if In(rs[j].data.siret, adminSirets) then [] else [NoAdminError(rs[j].data.index, rs[j].data.siret)])
                    && rs[j].validated
        invariant forall j :: i <= j < |rs| ==>
                    rs[j].errors == old(rs[j].errors) && rs[j].validated == old(rs[j].validated)
        invariant valid <==> forall j :: 0 <= j < i ==> rs[j].errors == []
        invariant exc.None?
      {
        rs[i].ValidateHasAdmin(adminSirets);
        var v := rs[i].IsValid();
        if v.Raised? {
          exc := Some(v.exc);
          break;
        }
        if !v.value {
          valid := false;
        }
        i := i + 1;
      }
      stop := i;
    }

    /** The loop of `from_worksheet`: every row read after the first is
        turned into a fresh row object numbered by its position, empty rows
        are dropped, and a row whose cells do not fit raises. */
    static method ReadRows(ws: seq<Raw>) returns (r: Outcome<seq<EtabCreateRow>>)
      requires forall p :: 1 <= p < |ws| ==> WellKinded(ws[p], CreateScalarKeys, ListKeys)
      ensures r.Ok? <==> Collect(CreateReads(ws), |ws|).Ok?
      ensures r.Ok? ==>
                && DistinctRows(r.value) && |r.value| == |Collect(CreateReads(ws), |ws|).value|
                && forall i :: 0 <= i < |r.value| ==>
                     && fresh(r.value[i]) && r.value[i].errors == [] && !r.value[i].validated
                     && r.value[i].data == Collect(CreateReads(ws), |ws|).value[i]
    {
      var built: seq<EtabCreateRow> := [];
      ghost var datas: seq<CreateFields> := [];
      ghost var os := CreateReads(ws);
      var idx := 1;
      for p := 0 to |ws|
        invariant idx == p + 1
        invariant Collect(os, p) == Ok(datas)
        invariant |built| == |datas| && DistinctRows(built)
        invariant forall k :: 0 <= k < |built| ==> fresh(built[k])
        invariant forall k :: 0 <= k < |built| ==>
                    built[k].errors == [] && !built[k].validated && built[k].data == datas[k]
      {
        if idx != 1 {
          var o;
          o, datas := ReadEtabCreateRow(idx, ws[p], built, os, p, datas);
          if o.Raised? {
            return Raised(o.exc);
          }
          built := o.value;
        } else {
          CollectStart(os);
        }
        idx := idx + 1;
      }
      r := Ok(built);
    }

    /** `from_worksheet`: the rows read, in a fresh collection not yet
        validated. */
    static method FromWorksheet(ws: seq<Raw>) returns (r: Outcome<EtabCreateRows>)
      requires forall p :: 1 <= p < |ws| ==> WellKinded(ws[p], CreateScalarKeys, ListKeys)
      ensures r.Ok? <==> Collect(CreateReads(ws), |ws|).Ok?
      ensures r.Ok? ==>
                && fresh(r.value) && r.value.header.None? && !r.value.isValid
                && r.value.hasEnoughRows && !r.value.hasTooManyRows
                && r.value.Valid() && |r.value.rows| == |Collect(CreateReads(ws), |ws|).value|
                && forall i :: 0 <= i < |r.value.rows| ==>
                     && fresh(r.value.rows[i]) && r.value.rows[i].errors == [] && !r.value.rows[i].validated
                     && r.value.rows[i].data == Collect(CreateReads(ws), |ws|).value[i]
    {
      var rs := ReadRows(ws);
      if rs.Raised? {
        return Raised(rs.exc);
      }
      var c := new EtabCreateRows(rs.value);
      r := Ok(c);
    }
  }

  // ---------------------------------------------------------------------
  // Establishment rows (update)

  /** The errors of each update row. The three row classes share no
      supertype in this model, so each has its own copy of `CreateErrors`. */
  function UpdateErrors(rs: seq<EtabUpdateRow>): (es: seq<seq<RowError>>)
    reads set r | r in rs
    ensures |es| == |rs| && forall j :: 0 <= j < |rs| ==> es[j] == rs[j].errors
  {
    seq(|rs|, j requires 0 <= j < |rs| reads set r | r in rs => rs[j].errors)
  }

  ghost predicate UpdatePassesFor(ps: seq<Pass>, olds: seq<seq<RowError>>, rs: seq<EtabUpdateRow>)
  {
    && |ps| == |olds| == |rs|
    && forall j {:trigger RunFrom(olds[j], UpdateTests(rs[j].data), 0)} :: 0 <= j < |rs| ==>
         ps[j] == RunFrom(olds[j], UpdateTests(rs[j].data), 0)
  }

  ghost method UpdatePasses(olds: seq<seq<RowError>>, rs: seq<EtabUpdateRow>) returns (ps: seq<Pass>)
    requires |olds| == |rs|
    ensures UpdatePassesFor(ps, olds, rs)
  {
    ps := seq(|rs|, j requires 0 <= j < |rs| => RunFrom(olds[j], UpdateTests(rs[j].data), 0));
  }

  method ValidateUpdateRow(r: EtabUpdateRow, ghost i: nat, ghost rs: seq<EtabUpdateRow>,
                           ghost olds: seq<seq<RowError>>, ghost ps: seq<Pass>) returns (exc: Option<Exc>)
    requires UpdatePassesFor(ps, olds, rs) && i < |rs| && r == rs[i] && r.errors == olds[i]
    modifies r
    ensures r.errors == ps[i].errors && exc == ps[i].raised && r.validated == (old(r.validated) || exc.None?)
  {
    assert ps[i] == RunFrom(olds[i], UpdateTests(rs[i].data), 0);
    exc := r.Validate();
  }

  /** One turn of the `from_worksheet` loop, on row `p` of the worksheet:
      `EtabUpdateRow.from_dict(idx, raw)`, and the row object built from its
      result appended to `built`, the rows so far (whose cells are `datas`);
      or the whole reading raises. */
  method ReadEtabUpdateRow(idx: int, raw: Raw, built: seq<EtabUpdateRow>, ghost os: seq<Outcome<Option<UpdateFields>>>,
                           ghost p: nat, ghost datas: seq<UpdateFields>)
    returns (o: Outcome<seq<EtabUpdateRow>>, ghost datas': seq<UpdateFields>)
    requires WellKinded(raw, UpdateScalarKeys, ListKeys)
    requires 1 <= p < |os| && idx == p + 1 && os[p] == UpdateFromDict(idx, raw) && Collect(os, p) == Ok(datas)
    requires |built| == |datas| && DistinctRows(built)
    requires forall k :: 0 <= k < |built| ==>
               built[k].errors == [] && !built[k].validated && built[k].data == datas[k]
    ensures o.Raised? ==> Collect(os, |os|).Raised?
    ensures o.Ok? ==> Collect(os, p + 1) == Ok(datas') && |o.value| == |datas'| && DistinctRows(o.value)
    ensures o.Ok? ==> forall k :: 0 <= k < |o.value| ==>
              o.value[k].errors == [] && !o.value[k].validated && o.value[k].data == datas'[k]
    ensures o.Ok? ==> forall k :: 0 <= k < |o.value| ==> (k < |built| && o.value[k] == built[k]) || fresh(o.value[k])
  {
    CollectStep(os, p, datas);
    var f := UpdateFromDict(idx, raw);
    match f
    case Raised(x) =>
      CollectOk(os, |os|);
      o, datas' := Raised(x), datas;
    case Ok(None) =>
      o, datas' := Ok(built), datas;
    case Ok(Some(d)) =>
      var row := new EtabUpdateRow(d);
      o, datas' := Ok(built + [row]), datas + [d];
  }

  /** The outcome of `EtabUpdateRow.from_dict` on each row of the worksheet, the
      row at position `p` numbered `p + 1`; the header row is not read. */
  function UpdateReads(ws: seq<Raw>): (os: seq<Outcome<Option<UpdateFields>>>)
    requires forall p :: 1 <= p < |ws| ==> WellKinded(ws[p], UpdateScalarKeys, ListKeys)
    ensures |os| == |ws| && forall p :: 1 <= p < |ws| ==> os[p] == UpdateFromDict(p + 1, ws[p])
  {
    seq(|ws|, p requires 0 <= p < |ws| => if p == 0 then Ok(None) else UpdateFromDict(p + 1, ws[p]))
  }

  /** `from_worksheet` raises exactly when the `from_dict` of some row past
      the header raises; otherwise its rows are built from the `from_dict`
      result of each row that is not all empty, in order, numbered by
      position. */
  lemma UpdateWorksheetRows(ws: seq<Raw>)
    requires forall p :: 1 <= p < |ws| ==> WellKinded(ws[p], UpdateScalarKeys, ListKeys)
    ensures Collect(UpdateReads(ws), |ws|).Ok? <==> forall q :: 1 <= q < |ws| ==> UpdateFromDict(q + 1, ws[q]).Ok?
    ensures Collect(UpdateReads(ws), |ws|).Ok? ==>
              && |Collect(UpdateReads(ws), |ws|).value| == |Kept(ws, |ws|)|
              && forall k :: 0 <= k < |Kept(ws, |ws|)| ==>
                   && UpdateFromDict(Kept(ws, |ws|)[k] + 1, ws[Kept(ws, |ws|)[k]]) == Ok(Some(Collect(UpdateReads(ws), |ws|).value[k]))
                   && Collect(UpdateReads(ws), |ws|).value[k].index == Kept(ws, |ws|)[k] + 1
  {
    var os: seq<Outcome<Option<UpdateFields>>> := UpdateReads(ws);
    CollectOk(os, |ws|);
    if Collect(os, |ws|).Ok? {
      forall p | 1 <= p < |ws|
        ensures os[p] == Ok(None) <==> AllFalsy(ws[p])
      {
        UpdateFromDictSpec(p + 1, ws[p]);
      }
      CollectRows(ws, os, |ws|);
      forall k | 0 <= k < |Kept(ws, |ws|)|
        ensures Collect(os, |ws|).value[k].index == Kept(ws, |ws|)[k] + 1
      {
        UpdateFromDictSpec(Kept(ws, |ws|)[k] + 1, ws[Kept(ws, |ws|)[k]]);
      }
    }
  }

  class EtabUpdateRows {
    var header: Option<EtabUpdateRow>
    var rows: seq<EtabUpdateRow>
    var isValid: bool
    var hasEnoughRows: bool
    var hasTooManyRows: bool

    constructor (rs: seq<EtabUpdateRow>)
      ensures header.None? && rows == rs && !isValid && hasEnoughRows && !hasTooManyRows
    {
      header, rows := None, rs;
      isValid, hasEnoughRows, hasTooManyRows := false, true, false;
    }

    predicate Valid()
      reads this
    {
      DistinctRows(rows)
    }

    method Append(row: EtabUpdateRow)
      modifies this
      ensures old(header).None? ==> header == Some(row) && rows == old(rows)
      ensures old(header).Some? ==> header == old(header) && rows == old(rows) + [row]
      ensures isValid == old(isValid) && hasEnoughRows == old(hasEnoughRows) &&
              hasTooManyRows == old(hasTooManyRows)
      ensures old(Valid()) && row !in old(rows) ==> Valid()
    {
      if header.None? {
        header := Some(row);
      } else {
        rows := rows + [row];
      }
    }

    /** `sirets`: the update collection defines its own, identical to the
        create collection's. */
    function Sirets(): (s: set<string>)
      reads this
      ensures forall x :: x in s <==> exists i :: 0 <= i < |rows| && rows[i].data.siret == Some(x) && x != ""
    {
      set i | 0 <= i < |rows| && TextTruthy(rows[i].data.siret) :: rows[i].data.siret.value
    }

    function GetErrors(): (es: seq<RowError>)
      reads this, set r | r in rows
    {
      Flatten(UpdateErrors(rows))
    }

    /** `as_json`: every row's export, in row order. */
    method AsJson() returns (ret: seq<map<string, Json>>)
      ensures |ret| == |rows| && forall i :: 0 <= i < |rows| ==> ret[i] == rows[i].AsJson()
    {
      ret := [];
      for i := 0 to |rows|
        invariant |ret| == i && forall j :: 0 <= j < i ==> ret[j] == rows[j].AsJson()
      {
        ret := ret + [rows[i].AsJson()];
      }
    }

    /** Batch validation with the update gates (3 to 500 rows), as for the
        create rows. */
    method Validate() returns (exc: Option<Exc>, ghost stop: nat, ghost passes: seq<Pass>)
      requires Valid()
      modifies this, rows
      ensures rows == old(rows) && header == old(header)
      ensures UpdatePassesFor(passes, old(UpdateErrors(rows)), rows)
      ensures stop <= |rows|
      ensures isValid <==> forall i :: 0 <= i < stop ==> rows[i].errors == []
      ensures |rows| < MinUpdateRows ==> !hasEnoughRows && hasTooManyRows == old(hasTooManyRows)
      ensures MinUpdateRows <= |rows| ==> hasEnoughRows == old(hasEnoughRows)
      ensures MinUpdateRows <= |rows| && |rows| > MaxRows ==> hasTooManyRows
      ensures |rows| < MinUpdateRows || |rows| > MaxRows ==>
                exc.None? && stop == 0 &&
                forall i :: 0 <= i < |rows| ==>
                  rows[i].errors == old(rows[i].errors) && rows[i].validated == old(rows[i].validated)
      ensures MinUpdateRows <= |rows| <= MaxRows ==>
                && hasTooManyRows == old(hasTooManyRows)
                && (forall i :: 0 <= i < stop ==> passes[i].raised.None?)
                && (stop < |rows| ==> exc == passes[stop].raised && exc.Some?)
                && (stop == |rows| ==> exc.None?)
                && (forall i :: 0 <= i <= stop && i < |rows| ==>
                      rows[i].errors == passes[i].errors &&
                      rows[i].validated == (old(rows[i].validated) || i < stop))
                && (forall i :: stop < i < |rows| ==>
                      rows[i].errors == old(rows[i].errors) && rows[i].validated == old(rows[i].validated))
    {
      ghost var olds := UpdateErrors(rows);
      passes := UpdatePasses(olds, rows);
      isValid := true;
      if |rows| < MinUpdateRows {
        hasEnoughRows := false;
        return None, 0, passes;
      }
      if |rows| > MaxRows {
        hasTooManyRows := true;
        return None, 0, passes;
      }
      exc, stop, isValid := ValidateEach(rows, olds, passes);
    }

    /** The loop of `validate`: each row in turn, until one raises (at
        `stop`); `valid` says whether every row validated to the end came out
        without errors. */
    static method ValidateEach(rs: seq<EtabUpdateRow>, ghost olds: seq<seq<RowError>>, ghost passes: seq<Pass>)
      returns (exc: Option<Exc>, ghost stop: nat, valid: bool)
      requires DistinctRows(rs) && UpdatePassesFor(passes, olds, rs)
      requires forall j :: 0 <= j < |rs| ==> rs[j].errors == olds[j]
      modifies rs
      ensures stop <= |rs|
      ensures valid <==> forall i :: 0 <= i < stop ==> rs[i].errors == []
      ensures forall i :: 0 <= i < stop ==> passes[i].raised.None?
      ensures stop < |rs| ==> exc == passes[stop].raised && exc.Some?
      ensures stop == |rs| ==> exc.None?
      ensures forall i :: 0 <= i <= stop && i < |rs| ==>
                rs[i].errors == passes[i].errors && rs[i].validated == (old(rs[i].validated) || i < stop)
      ensures forall i :: stop < i < |rs| ==>
                rs[i].errors == olds[i] && rs[i].validated == old(rs[i].validated)
    {
      valid := true;
      var i := 0;
      exc := None;
      while i < |rs|
        invariant 0 <= i <= |rs|
        invariant forall j :: 0 <= j < i ==> passes[j].raised.None?
        invariant forall j :: 0 <= j < i ==> rs[j].errors == passes[j].errors && rs[j].validated
        invariant forall j :: i <= j < |rs| ==>
                    rs[j].errors == olds[j] && rs[j].validated == old(rs[j].validated)
        invariant valid <==> forall j :: 0 <= j < i ==> rs[j].errors == []
        invariant exc.None?
      {
        var e := ValidateUpdateRow(rs[i], i, rs, olds, passes);
        if e.Some? {
          exc := e;
          break;
        }
        if rs[i].IsValid() == Ok(false) {
          valid := false;
        }
        i := i + 1;
      }
      stop := i;
    }

    /** The loop of `from_worksheet`: every row read after the first is
        turned into a fresh row object numbered by its position, empty rows
        are dropped, and a row whose cells do not fit raises. */
    static method ReadRows(ws: seq<Raw>) returns (r: Outcome<seq<EtabUpdateRow>>)
      requires forall p :: 1 <= p < |ws| ==> WellKinded(ws[p], UpdateScalarKeys, ListKeys)
      ensures r.Ok? <==> Collect(UpdateReads(ws), |ws|).Ok?
      ensures r.Ok? ==>
                && DistinctRows(r.value) && |r.value| == |Collect(UpdateReads(ws), |ws|).value|
                && forall i :: 0 <= i < |r.value| ==>
                     && fresh(r.value[i]) && r.value[i].errors == [] && !r.value[i].validated
                     && r.value[i].data == Collect(UpdateReads(ws), |ws|).value[i]
    {
      var built: seq<EtabUpdateRow> := [];
      ghost var datas: seq<UpdateFields> := [];
      ghost var os := UpdateReads(ws);
      var idx := 1;
      for p := 0 to |ws|
        invariant idx == p + 1
        invariant Collect(os, p) == Ok(datas)
        invariant |built| == |datas| && DistinctRows(built)
        invariant forall k :: 0 <= k < |built| ==> fresh(built[k])
        invariant forall k :: 0 <= k < |built| ==>
                    built[k].errors == [] && !built[k].validated && built[k].data == datas[k]
      {
        if idx != 1 {
          var o;
          o, datas := ReadEtabUpdateRow(idx, ws[p], built, os, p, datas);
          if o.Raised? {
            return Raised(o.exc);
          }
          built := o.value;
        } else {
          CollectStart(os);
        }
        idx := idx + 1;
      }
      r := Ok(built);
    }

    /** `from_worksheet`: the rows read, in a fresh collection not yet
        validated. */
    static method FromWorksheet(ws: seq<Raw>) returns (r: Outcome<EtabUpdateRows>)
      requires forall p :: 1 <= p < |ws| ==> WellKinded(ws[p], UpdateScalarKeys, ListKeys)
      ensures r.Ok? <==> Collect(UpdateReads(ws), |ws|).Ok?
      ensures r.Ok? ==>
                && fresh(r.value) && r.value.header.None? && !r.value.isValid
                && r.value.hasEnoughRows && !r.value.hasTooManyRows
                && r.value.Valid() && |r.value.rows| == |Collect(UpdateReads(ws), |ws|).value|
                && forall i :: 0 <= i < |r.value.rows| ==>
                     && fresh(r.value.rows[i]) && r.value.rows[i].errors == [] && !r.value.rows[i].validated
                     && r.value.rows[i].data == Collect(UpdateReads(ws), |ws|).value[i]
    {
      var rs := ReadRows(ws);
      if rs.Raised? {
        return Raised(rs.exc);
      }
      var c := new EtabUpdateRows(rs.value);
      r := Ok(c);
    }
  }

  // ---------------------------------------------------------------------
  // Role rows

  /** The errors of each role row: the role rows' copy of `CreateErrors`. */
  function RoleErrorsOf(rs: seq<RoleRow>): (es: seq<seq<RowError>>)
    reads set r | r in rs
    ensures |es| == |rs| && forall j :: 0 <= j < |rs| ==> es[j] == rs[j].errors
  {
    seq(|rs|, j requires 0 <= j < |rs| reads set r | r in rs => rs[j].errors)
  }

  ghost predicate RolePassesFor(ps: seq<Pass>, olds: seq<seq<RowError>>, rs: seq<RoleRow>,
                                etabSirets: set<string>, emailOk: string -> bool)
  {
    && |ps| == |olds| == |rs|
    && forall j {:trigger RunFrom(olds[j], RoleTests(rs[j].data, etabSirets, emailOk), 0)} :: 0 <= j < |rs| ==>
         ps[j] == RunFrom(olds[j], RoleTests(rs[j].data, etabSirets, emailOk), 0)
  }

  ghost method RolePasses(olds: seq<seq<RowError>>, rs: seq<RoleRow>, etabSirets: set<string>, emailOk: string -> bool)
    returns (ps: seq<Pass>)
    requires |olds| == |rs|
    ensures RolePassesFor(ps, olds, rs, etabSirets, emailOk)
  {
    ps := seq(|rs|, j requires 0 <= j < |rs| => RunFrom(olds[j], RoleTests(rs[j].data, etabSirets, emailOk), 0));
  }

  method ValidateRoleRow(r: RoleRow, etabSirets: set<string>, emailOk: string -> bool, ghost i: nat,
                         ghost rs: seq<RoleRow>, ghost olds: seq<seq<RowError>>, ghost ps: seq<Pass>)
    requires RolePassesFor(ps, olds, rs, etabSirets, emailOk) && i < |rs| && r == rs[i] && r.errors == olds[i]
    modifies r
    ensures r.errors == ps[i].errors && ps[i].raised.None? && r.validated
  {
    assert ps[i] == RunFrom(olds[i], RoleTests(rs[i].data, etabSirets, emailOk), 0);
    r.Validate(etabSirets, emailOk);
  }

  /** One turn of the `from_worksheet` loop, on row `p` of the worksheet:
      `RoleRow.from_dict(idx, raw)`, and the row object built from its
      result appended to `built`, the rows so far (whose cells are `datas`);
      or the whole reading raises. */
  method ReadRoleRow(idx: int, raw: Raw, built: seq<RoleRow>, ghost os: seq<Outcome<Option<RoleFields>>>,
                     ghost p: nat, ghost datas: seq<RoleFields>)
    returns (o: Outcome<seq<RoleRow>>, ghost datas': seq<RoleFields>)
    requires WellKinded(raw, RoleKeys, {})
    requires 1 <= p < |os| && idx == p + 1 && os[p] == RoleFromDict(idx, raw) && Collect(os, p) == Ok(datas)
    requires |built| == |datas| && DistinctRows(built)
    requires forall k :: 0 <= k < |built| ==>
               built[k].errors == [] && !built[k].validated && built[k].data == datas[k]
    ensures o.Raised? ==> Collect(os, |os|).Raised?
    ensures o.Ok? ==> Collect(os, p + 1) == Ok(datas') && |o.value| == |datas'| && DistinctRows(o.value)
    ensures o.Ok? ==> forall k :: 0 <= k < |o.value| ==>
              o.value[k].errors == [] && !o.value[k].validated && o.value[k].data == datas'[k]
    ensures o.Ok? ==> forall k :: 0 <= k < |o.value| ==> (k < |built| && o.value[k] == built[k]) || fresh(o.value[k])
  {
    CollectStep(os, p, datas);
    var f := RoleFromDict(idx, raw);
    match f
    case Raised(x) =>
      CollectOk(os, |os|);
      o, datas' := Raised(x), datas;
    case Ok(None) =>
      o, datas' := Ok(built), datas;
    case Ok(Some(d)) =>
      var row := new RoleRow(d);
      o, datas' := Ok(built + [row]), datas + [d];
  }

  /** The outcome of `RoleRow.from_dict` on each row of the worksheet, the
      row at position `p` numbered `p + 1`; the header row is not read. */
  function RoleReads(ws: seq<Raw>): (os: seq<Outcome<Option<RoleFields>>>)
    requires forall p :: 1 <= p < |ws| ==> WellKinded(ws[p], RoleKeys, {})
    ensures |os| == |ws| && forall p :: 1 <= p < |ws| ==> os[p] == RoleFromDict(p + 1, ws[p])
  {
    seq(|ws|, p requires 0 <= p < |ws| => if p == 0 then Ok(None) else RoleFromDict(p + 1, ws[p]))
  }

  /** `from_worksheet` raises exactly when the `from_dict` of some row past
      the header raises; otherwise its rows are built from the `from_dict`
      result of each row that is not all empty, in order, numbered by
      position. */
  lemma RoleWorksheetRows(ws: seq<Raw>)
    requires forall p :: 1 <= p < |ws| ==> WellKinded(ws[p], RoleKeys, {})
    ensures Collect(RoleReads(ws), |ws|).Ok? <==> forall q :: 1 <= q < |ws| ==> RoleFromDict(q + 1, ws[q]).Ok?
    ensures Collect(RoleReads(ws), |ws|).Ok? ==>
              && |Collect(RoleReads(ws), |ws|).value| == |Kept(ws, |ws|)|
              && forall k :: 0 <= k < |Kept(ws, |ws|)| ==>
                   && RoleFromDict(Kept(ws, |ws|)[k] + 1, ws[Kept(ws, |ws|)[k]]) == Ok(Some(Collect(RoleReads(ws), |ws|).value[k]))
                   && Collect(RoleReads(ws), |ws|).value[k].index == Kept(ws, |ws|)[k] + 1
  {
    var os: seq<Outcome<Option<RoleFields>>> := RoleReads(ws);
    CollectOk(os, |ws|);
    if Collect(os, |ws|).Ok? {
      forall p | 1 <= p < |ws|
        ensures os[p] == Ok(None) <==> AllFalsy(ws[p])
      {
        RoleFromDictSpec(p + 1, ws[p]);
      }
      CollectRows(ws, os, |ws|);
      forall k | 0 <= k < |Kept(ws, |ws|)|
        ensures Collect(os, |ws|).value[k].index == Kept(ws, |ws|)[k] + 1
      {
        RoleFromDictSpec(Kept(ws, |ws|)[k] + 1, ws[Kept(ws, |ws|)[k]]);
      }
    }
  }

  /** The duplicate key of a role row: siret and email as text, joined by `_`. */
  function Key(d: RoleFields): string
  {
    Str(d.siret) + "_" + Str(d.email)
  }

  function Keys(rs: seq<RoleRow>): (ks: seq<string>)
    ensures |ks| == |rs| && forall i :: 0 <= i < |rs| ==> ks[i] == Key(rs[i].data)
  {
    seq(|rs|, i requires 0 <= i < |rs| => Key(rs[i].data))
  }

  /** Position `i` repeats a key seen earlier in the list. */
  predicate IsRepeat<K(==)>(ks: seq<K>, i: nat)
    requires i < |ks|
  {
    exists j :: 0 <= j < i && ks[j] == ks[i]
  }

  /** Of all the positions holding one key, exactly one is not a repeat. */
  lemma OneFirstOccurrence<K>(ks: seq<K>, i: nat)
    requires i < |ks|
    ensures exists f :: 0 <= f <= i && ks[f] == ks[i] && !IsRepeat(ks, f)
    ensures forall f, g :: (0 <= f < |ks| && 0 <= g < |ks| && ks[f] == ks[i] && ks[g] == ks[i] &&
                            !IsRepeat(ks, f) && !IsRepeat(ks, g)) ==> f == g
  {
    var f := i;
    while IsRepeat(ks, f)
      invariant 0 <= f <= i && ks[f] == ks[i]
      decreases f
    {
      var j :| 0 <= j < f && ks[j] == ks[f];
      f := j;
    }
  }

  /** The positions among the first `n` whose key repeats an earlier one. */
  function RepeatPositions<K(==)>(ks: seq<K>, n: nat): (ps: seq<nat>)
    requires n <= |ks|
    ensures forall a :: 0 <= a < |ps| ==> ps[a] < n
  {
    if n == 0 then [] else RepeatPositions(ks, n - 1) + (if IsRepeat(ks, n - 1) then [n - 1] else [])
  }

  lemma {:induction false} RepeatPositionsSpec<K>(ks: seq<K>, n: nat)
    requires n <= |ks|
    ensures forall k: nat :: k in RepeatPositions(ks, n) <==> k < n && IsRepeat(ks, k)
    ensures forall a, b :: 0 <= a < b < |RepeatPositions(ks, n)| ==>
              RepeatPositions(ks, n)[a] < RepeatPositions(ks, n)[b]
  {
    if n > 0 {
      RepeatPositionsSpec(ks, n - 1);
    }
  }

  /** Distinct (siret, email) pairs can share a key: the key is the string,
      not the pair. */
  lemma KeysCollide(index: int)
    ensures var a := RoleFields(index, Some("a_b"), Some("c"), Some("ADMIN"));
            var b := RoleFields(index, Some("a"), Some("b_c"), Some("ADMIN"));
            a != b && Key(a) == Key(b)
  {
    var a := RoleFields(index, Some("a_b"), Some("c"), Some("ADMIN"));
    var b := RoleFields(index, Some("a"), Some("b_c"), Some("ADMIN"));
    assert a.siret != b.siret;
    assert Key(a) == "a_b_c" == Key(b);
  }

  class RoleRows {
    var header: Option<RoleRow>
    var rows: seq<RoleRow>
    var isValid: bool

    constructor (rs: seq<RoleRow>)
      ensures header.None? && rows == rs && !isValid
    {
      header, rows := None, rs;
      isValid := false;
    }

    predicate Valid()
      reads this
    {
      DistinctRows(rows)
    }

    method Append(row: RoleRow)
      modifies this
      ensures old(header).None? ==> header == Some(row) && rows == old(rows)
      ensures old(header).Some? ==> header == old(header) && rows == old(rows) + [row]
      ensures isValid == old(isValid)
      ensures old(Valid()) && row !in old(rows) ==> Valid()
    {
      if header.None? {
        header := Some(row);
      } else {
        rows := rows + [row];
      }
    }

    /** `admin_sirets`: the distinct non-empty sirets of the `ADMIN` rows. */
    function AdminSirets(): (s: set<string>)
      reads this
      ensures forall x :: x in s <==>
                exists i :: 0 <= i < |rows| && rows[i].data.siret == Some(x) && x != "" &&
                            rows[i].data.role == Some("ADMIN")
    {
      set i | 0 <= i < |rows| && TextTruthy(rows[i].data.siret) && rows[i].data.role == Some("ADMIN")
        :: rows[i].data.siret.value
    }

    function GetErrors(): (es: seq<RowError>)
      reads this, set r | r in rows
    {
      Flatten(RoleErrorsOf(rows))
    }

    /** `validate`: every row is validated against the establishment sirets;
        then every row whose key repeats an earlier row's gets one
        `duplicate_role` error. `isValid` ends true exactly when no row has an
        error after its own checks and no key repeats. */
    method Validate(etabSirets: set<string>, emailOk: string -> bool) returns (ghost passes: seq<Pass>)
      requires Valid()
      modifies this, rows
      ensures rows == old(rows) && header == old(header)
      ensures RolePassesFor(passes, old(RoleErrorsOf(rows)), rows, etabSirets, emailOk)
      ensures forall i :: 0 <= i < |rows| ==>
                && rows[i].validated
                && rows[i].errors == passes[i].errors +
                     (if IsRepeat(Keys(rows), i) then [DuplicateError(rows[i].data.index, rows[i].data.email)] else [])
      ensures isValid <==> (forall i :: 0 <= i < |rows| ==> passes[i].errors == []) &&
                           (forall i :: 0 <= i < |rows| ==> !IsRepeat(Keys(rows), i))
    {
      ghost var olds := RoleErrorsOf(rows);
      passes := RolePasses(olds, rows, etabSirets, emailOk);
      var valid := ValidateRows(rows, etabSirets, emailOk, olds, passes);
      isValid := valid;
    }

    /** The body of `validate` over the row list: both passes, and whether
        the list came out valid. */
    static method ValidateRows(rs: seq<RoleRow>, etabSirets: set<string>, emailOk: string -> bool,
                               ghost olds: seq<seq<RowError>>, ghost passes: seq<Pass>) returns (valid: bool)
      requires DistinctRows(rs) && RolePassesFor(passes, olds, rs, etabSirets, emailOk)
      requires forall j :: 0 <= j < |rs| ==> rs[j].errors == olds[j]
      modifies rs
      ensures forall i :: 0 <= i < |rs| ==>
                && rs[i].validated
                && rs[i].errors == passes[i].errors +
                     (if IsRepeat(Keys(rs), i) then [DuplicateError(rs[i].data.index, rs[i].data.email)] else [])
      ensures valid <==> (forall i :: 0 <= i < |rs| ==> passes[i].errors == []) &&
                         (forall i :: 0 <= i < |rs| ==> !IsRepeat(Keys(rs), i))
    {
      valid := ValidateEach(rs, etabSirets, emailOk, olds, passes);
      var found := CheckDuplicates(rs);
      if found {
        valid := false;
      }
    }

    /** The duplicate check of `validate`: the rows' keys in order, each row
        whose key was already seen marked as a duplicate; `found` says
        whether there was any. */
    static method CheckDuplicates(rs: seq<RoleRow>) returns (found: bool)
      requires DistinctRows(rs)
      modifies rs
      ensures forall i :: 0 <= i < |rs| ==>
                && rs[i].validated == old(rs[i].validated)
                && rs[i].errors == old(rs[i].errors) +
                     (if IsRepeat(Keys(rs), i) then [DuplicateError(rs[i].data.index, rs[i].data.email)] else [])
      ensures found <==> exists i :: 0 <= i < |rs| && IsRepeat(Keys(rs), i)
    {
      var pairs := Keys(rs);
      var duplicates := MarkDuplicates(rs, pairs);
      RepeatPositionsSpec(pairs, |rs|);
      found := duplicates != [];
      if found {
        assert duplicates[0] in RepeatPositions(pairs, |rs|);
      }
    }

    /** The first loop of `validate`: each row checked in turn. */
    static method ValidateEach(rs: seq<RoleRow>, etabSirets: set<string>, emailOk: string -> bool,
                               ghost olds: seq<seq<RowError>>, ghost passes: seq<Pass>) returns (valid: bool)
      requires DistinctRows(rs) && RolePassesFor(passes, olds, rs, etabSirets, emailOk)
      requires forall j :: 0 <= j < |rs| ==> rs[j].errors == olds[j]
      modifies rs
      ensures forall j :: 0 <= j < |rs| ==> rs[j].errors == passes[j].errors && rs[j].validated
      ensures valid <==> forall j :: 0 <= j < |rs| ==> passes[j].errors == []
    {
      valid := true;
      for i := 0 to |rs|
        invariant forall j :: 0 <= j < i ==> rs[j].errors == passes[j].errors && rs[j].validated
        invariant forall j :: i <= j < |rs| ==> rs[j].errors == olds[j]
        invariant valid <==> forall j :: 0 <= j < i ==> passes[j].errors == []
      {
        ValidateRoleRow(rs[i], etabSirets, emailOk, i, rs, olds, passes);
        if rs[i].IsValid() == Ok(false) {
          valid := false;
        }
      }
    }

    /** The duplicate pass of `validate`, over the rows' keys: a key already
        seen marks its row as a duplicate and its position is recorded. */
    static method MarkDuplicates<K(==)>(rs: seq<RoleRow>, pairs: seq<K>) returns (duplicates: seq<nat>)
      requires DistinctRows(rs) && |pairs| == |rs|
      modifies rs
      ensures forall i :: 0 <= i < |rs| ==>
                && rs[i].validated == old(rs[i].validated)
                && rs[i].errors == old(rs[i].errors) +
                     (if IsRepeat(pairs, i) then [DuplicateError(rs[i].data.index, rs[i].data.email)] else [])
      ensures duplicates == RepeatPositions(pairs, |rs|)
    {
      var seen: set<K> := {};
      duplicates := [];
      for idx := 0 to |pairs|
        invariant forall x :: x in seen <==> exists j :: 0 <= j < idx && pairs[j] == x
        invariant forall j :: 0 <= j < idx ==>
                    && rs[j].validated == old(rs[j].validated)
                    && rs[j].errors == old(rs[j].errors) +
                         (if IsRepeat(pairs, j) then [DuplicateError(rs[j].data.index, rs[j].data.email)] else [])
        invariant forall j :: idx <= j < |rs| ==>
                    rs[j].validated == old(rs[j].validated) && rs[j].errors == old(rs[j].errors)
        invariant duplicates == RepeatPositions(pairs, idx)
      {
        assert pairs[idx] in seen <==> IsRepeat(pairs, idx);
        if pairs[idx] in seen {
          duplicates := duplicates + [idx];
          rs[idx].MarkAsDuplicate();
        }
        if pairs[idx] !in seen {
          seen := seen + {pairs[idx]};
        }
      }
    }

    /** The loop of `from_worksheet`: every row read after the first is
        turned into a fresh row object numbered by its position, empty rows
        are dropped, and a row whose cells do not fit raises. */
    static method ReadRows(ws: seq<Raw>) returns (r: Outcome<seq<RoleRow>>)
      requires forall p :: 1 <= p < |ws| ==> WellKinded(ws[p], RoleKeys, {})
      ensures r.Ok? <==> Collect(RoleReads(ws), |ws|).Ok?
      ensures r.Ok? ==>
                && DistinctRows(r.value) && |r.value| == |Collect(RoleReads(ws), |ws|).value|
                && forall i :: 0 <= i < |r.value| ==>
                     && fresh(r.value[i]) && r.value[i].errors == [] && !r.value[i].validated
                     && r.value[i].data == Collect(RoleReads(ws), |ws|).value[i]
    {
      var built: seq<RoleRow> := [];
      ghost var datas: seq<RoleFields> := [];
      ghost var os := RoleReads(ws);
      var idx := 1;
      for p := 0 to |ws|
        invariant idx == p + 1
        invariant Collect(os, p) == Ok(datas)
        invariant |built| == |datas| && DistinctRows(built)
        invariant forall k :: 0 <= k < |built| ==> fresh(built[k])
        invariant forall k :: 0 <= k < |built| ==>
                    built[k].errors == [] && !built[k].validated && built[k].data == datas[k]
      {
        if idx != 1 {
          var o;
          o, datas := ReadRoleRow(idx, ws[p], built, os, p, datas);
          if o.Raised? {
            return Raised(o.exc);
          }
          built := o.value;
        } else {
          CollectStart(os);
        }
        idx := idx + 1;
      }
      r := Ok(built);
    }

    /** `from_worksheet`: the rows read, in a fresh collection not yet
        validated. */
    static method FromWorksheet(ws: seq<Raw>) returns (r: Outcome<RoleRows>)
      requires forall p :: 1 <= p < |ws| ==> WellKinded(ws[p], RoleKeys, {})
      ensures r.Ok? <==> Collect(RoleReads(ws), |ws|).Ok?
      ensures r.Ok? ==>
                && fresh(r.value) && r.value.header.None? && !r.value.isValid
                && r.value.Valid() && |r.value.rows| == |Collect(RoleReads(ws), |ws|).value|
                && forall i :: 0 <= i < |r.value.rows| ==>
                     && fresh(r.value.rows[i]) && r.value.rows[i].errors == [] && !r.value.rows[i].validated
                     && r.value.rows[i].data == Collect(RoleReads(ws), |ws|).value[i]
    {
      var rs := ReadRows(ws);
      if rs.Raised? {
        return Raised(rs.exc);
      }
      var c := new RoleRows(rs.value);
      r := Ok(c);
    }
  }
}
