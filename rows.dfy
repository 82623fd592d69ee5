/** The row models: the two establishment shapes (create, update) and the role
    shape. Each row is built from one raw row (`from_dict`), holds its cells
    as constants, and accumulates errors in place: `errors` is append-only and
    `validated` gates reading `is_valid`. */
module Rows {
  import opened Values
  import opened Fields
  import opened RowErrors
  import Taxonomy

  // ---------------------------------------------------------------------
  // The cells of each row shape

  datatype CreateFields = CreateFields(
    index: int, siret: Option<string>, gerepId: Option<string>,
    companyTypes: Option<seq<string>>, collectorTypes: Option<seq<string>>,
    wasteProcessorTypes: Option<seq<string>>, wasteVehiclesTypes: Option<seq<string>>,
    givenName: Option<string>, contactEmail: Option<string>, contactPhone: Option<string>,
    contact: Option<string>, website: Option<string>)

  datatype UpdateFields = UpdateFields(
    index: int, siret: Option<string>,
    companyTypes: Option<seq<string>>, collectorTypes: Option<seq<string>>,
    wasteProcessorTypes: Option<seq<string>>, wasteVehiclesTypes: Option<seq<string>>)

  datatype RoleFields = RoleFields(index: int, siret: Option<string>, email: Option<string>,
                                   role: Option<string>)

  const ListKeys: set<Column> := {CompanyTypesCol, CollectorTypesCol, WasteProcessorTypesCol, WasteVehiclesTypesCol}
  const CreateScalarKeys: set<Column> :=
    {SiretCol, GerepIdCol, GivenNameCol, ContactEmailCol, ContactPhoneCol, ContactCol, WebsiteCol}
  const UpdateScalarKeys: set<Column> := {SiretCol}
  const RoleKeys: set<Column> := {SiretCol, EmailCol, RoleCol}

  // ---------------------------------------------------------------------
  // from_dict

  /** The worksheet reader puts text (or nothing) in scalar columns and lists
      (or nothing) in list columns, never names the bookkeeping attributes, and
      spells every named keyword by its own constructor. */
  predicate WellKinded(raw: Raw, scalarKeys: set<Column>, listKeys: set<Column>)
  {
    && ErrorsCol !in raw && ValidatedCol !in raw
    && (forall k :: k in raw && k.OtherCol? ==> k.name !in NamedColumns)
    && (forall k :: k in raw && k in scalarKeys ==> !raw[k].Items?)
    && (forall k :: k in raw && k in listKeys ==> !raw[k].Text?)
  }

  /** Every value of the raw row is falsy. */
  predicate AllFalsy(raw: Raw)
  {
    forall k :: k in raw ==> !Truthy(raw[k])
  }

  function TextCell(raw: Raw, key: Column, default: Option<string>): Option<string>
    requires key in raw ==> !raw[key].Items?
  {
    if key !in raw then default
    else match raw[key]
      case Text(s) => Some(s)
      case _ => None
  }

  function ListCell(raw: Raw, key: Column): Option<seq<string>>
    requires key in raw ==> !raw[key].Text?
  {
    if key !in raw then Some([])
    else match raw[key]
      case Items(xs) => Some(xs)
      case _ => None
  }

  /** `EtabCreateRow.from_dict(idx, raw)`: no row for an all-falsy raw row;
      TypeError for a keyword the row does not have (including `index`);
      otherwise the row, missing text cells defaulting to "" and missing lists to []. */
  function CreateFromDict(idx: int, raw: Raw): Outcome<Option<CreateFields>>
    requires WellKinded(raw, CreateScalarKeys, ListKeys)
  {
    if AllFalsy(raw) then Ok(None)
    else if !(raw.Keys <= CreateScalarKeys + ListKeys) then Raised(TypeError)
    else Ok(Some(CreateFields(
      idx, TextCell(raw, SiretCol, Some("")), TextCell(raw, GerepIdCol, Some("")),
      ListCell(raw, CompanyTypesCol), ListCell(raw, CollectorTypesCol),
      ListCell(raw, WasteProcessorTypesCol), ListCell(raw, WasteVehiclesTypesCol),
      TextCell(raw, GivenNameCol, Some("")), TextCell(raw, ContactEmailCol, Some("")),
      TextCell(raw, ContactPhoneCol, Some("")), TextCell(raw, ContactCol, Some("")),
      TextCell(raw, WebsiteCol, Some("")))))
  }

  /** `EtabUpdateRow.from_dict(idx, raw)`. */
  function UpdateFromDict(idx: int, raw: Raw): Outcome<Option<UpdateFields>>
    requires WellKinded(raw, UpdateScalarKeys, ListKeys)
  {
    if AllFalsy(raw) then Ok(None)
    else if !(raw.Keys <= UpdateScalarKeys + ListKeys) then Raised(TypeError)
    else Ok(Some(UpdateFields(
      idx, TextCell(raw, SiretCol, Some("")),
      ListCell(raw, CompanyTypesCol), ListCell(raw, CollectorTypesCol),
      ListCell(raw, WasteProcessorTypesCol), ListCell(raw, WasteVehiclesTypesCol))))
  }

  /** `RoleRow.from_dict(idx, raw)`: the three role cells have no default, so a
      missing one raises TypeError like an unknown one. */
  function RoleFromDict(idx: int, raw: Raw): Outcome<Option<RoleFields>>
    requires WellKinded(raw, RoleKeys, {})
  {
    if AllFalsy(raw) then Ok(None)
    else if raw.Keys != RoleKeys then Raised(TypeError)
    else Ok(Some(RoleFields(idx, TextCell(raw, SiretCol, None), TextCell(raw, EmailCol, None),
                            TextCell(raw, RoleCol, None))))
  }

  /** `v` is what a text cell of `raw` under `key` becomes: the text of a text
      cell, None for a None cell, `default` for a missing keyword. */
  predicate ReadsText(raw: Raw, key: Column, default: Option<string>, v: Option<string>)
  {
    && (key !in raw ==> v == default)
    && (key in raw && raw[key].Text? ==> v == Some(raw[key].s))
    && (key in raw && raw[key].Null? ==> v == None)
  }

  /** `v` is what a list cell of `raw` under `key` becomes: the list of a list
      cell, None for a None cell, the empty list for a missing keyword. */
  predicate ReadsList(raw: Raw, key: Column, v: Option<seq<string>>)
  {
    && (key !in raw ==> v == Some([]))
    && (key in raw && raw[key].Items? ==> v == Some(raw[key].xs))
    && (key in raw && raw[key].Null? ==> v == None)
  }

  /** An all-falsy raw row yields no row, any other yields a row numbered `idx`
      whose every cell is read from the raw row, or raises on a keyword mismatch. */
  lemma CreateFromDictSpec(idx: int, raw: Raw)
    requires WellKinded(raw, CreateScalarKeys, ListKeys)
    ensures CreateFromDict(idx, raw) == Ok(None) <==> AllFalsy(raw)
    ensures CreateFromDict(idx, raw).Raised? <==> !AllFalsy(raw) && !(raw.Keys <= CreateScalarKeys + ListKeys)
    ensures CreateFromDict(idx, raw).Raised? ==> CreateFromDict(idx, raw).exc == TypeError
    ensures CreateFromDict(idx, raw).Ok? && CreateFromDict(idx, raw).value.Some? ==>
              var d := CreateFromDict(idx, raw).value.value;
              && d.index == idx
              && ReadsText(raw, SiretCol, Some(""), d.siret)
              && ReadsText(raw, GerepIdCol, Some(""), d.gerepId)
              && ReadsList(raw, CompanyTypesCol, d.companyTypes)
              && ReadsList(raw, CollectorTypesCol, d.collectorTypes)
              && ReadsList(raw, WasteProcessorTypesCol, d.wasteProcessorTypes)
              && ReadsList(raw, WasteVehiclesTypesCol, d.wasteVehiclesTypes)
              && ReadsText(raw, GivenNameCol, Some(""), d.givenName)
              && ReadsText(raw, ContactEmailCol, Some(""), d.contactEmail)
              && ReadsText(raw, ContactPhoneCol, Some(""), d.contactPhone)
              && ReadsText(raw, ContactCol, Some(""), d.contact)
              && ReadsText(raw, WebsiteCol, Some(""), d.website)
  {
  }

  lemma UpdateFromDictSpec(idx: int, raw: Raw)
    requires WellKinded(raw, UpdateScalarKeys, ListKeys)
    ensures UpdateFromDict(idx, raw) == Ok(None) <==> AllFalsy(raw)
    ensures UpdateFromDict(idx, raw).Raised? <==> !AllFalsy(raw) && !(raw.Keys <= UpdateScalarKeys + ListKeys)
    ensures UpdateFromDict(idx, raw).Raised? ==> UpdateFromDict(idx, raw).exc == TypeError
    ensures UpdateFromDict(idx, raw).Ok? && UpdateFromDict(idx, raw).value.Some? ==>
              var d := UpdateFromDict(idx, raw).value.value;
              && d.index == idx
              && ReadsText(raw, SiretCol, Some(""), d.siret)
              && ReadsList(raw, CompanyTypesCol, d.companyTypes)
              && ReadsList(raw, CollectorTypesCol, d.collectorTypes)
              && ReadsList(raw, WasteProcessorTypesCol, d.wasteProcessorTypes)
              && ReadsList(raw, WasteVehiclesTypesCol, d.wasteVehiclesTypes)
  {
  }

  /** A role row is built only when all three keywords are present, so no cell
      falls back to a default. */
  lemma RoleFromDictSpec(idx: int, raw: Raw)
    requires WellKinded(raw, RoleKeys, {})
    ensures RoleFromDict(idx, raw) == Ok(None) <==> AllFalsy(raw)
    ensures RoleFromDict(idx, raw).Raised? <==> !AllFalsy(raw) && raw.Keys != RoleKeys
    ensures RoleFromDict(idx, raw).Raised? ==> RoleFromDict(idx, raw).exc == TypeError
    ensures RoleFromDict(idx, raw).Ok? && RoleFromDict(idx, raw).value.Some? ==>
              var d := RoleFromDict(idx, raw).value.value;
              && d.index == idx && raw.Keys == RoleKeys
              && ReadsText(raw, SiretCol, None, d.siret)
              && ReadsText(raw, EmailCol, None, d.email)
              && ReadsText(raw, RoleCol, None, d.role)
  {
  }


  // ---------------------------------------------------------------------
  // What validate() appends

  /** One check of a validation pass: its verdict, or the exception raised
      while evaluating it, and the error it records when it fails. */
  datatype Check = Check(verdict: Outcome<bool>, err: RowError)

  /** What a pass leaves behind: the row's errors, and the exception that
      stopped it, if one did. */
  datatype Pass = Pass(errors: seq<RowError>, raised: Option<Exc>)

  /** Runs checks `k..` in order after the `prior` errors: a failing check
      appends its error, and a check that raises stops the pass there. */
  function RunFrom(prior: seq<RowError>, ts: seq<Check>, k: nat): Pass
    requires k <= |ts|
    decreases |ts| - k
  {
    if k == |ts| then Pass(prior, None)
    else match ts[k].verdict
      case Raised(x) => Pass(prior, Some(x))
      case Ok(b) => RunFrom(if b then prior else prior + [ts[k].err], ts, k + 1)
  }

  /** A pass over a row that has no error yet. */
  function Run(ts: seq<Check>): Pass
  {
    RunFrom([], ts, 0)
  }

  /** The first check at or after `k` that raises, or `|ts|` when none does. */
  function Stop(ts: seq<Check>, k: nat): (s: nat)
    requires k <= |ts|
    ensures k <= s <= |ts|
    ensures forall i :: k <= i < s ==> ts[i].verdict.Ok?
    ensures s < |ts| ==> ts[s].verdict.Raised?
    decreases |ts| - k
  {
    if k == |ts| || ts[k].verdict.Raised? then k else Stop(ts, k + 1)
  }

  predicate Fails(ts: seq<Check>, i: nat)
    requires i < |ts|
  {
    ts[i].verdict == Ok(false)
  }

  /** A pass appends to the errors already there and never lets them decide
      anything: it appends and raises the same whatever came before. */
  lemma {:induction false} RunFromPrior(prior: seq<RowError>, ts: seq<Check>, k: nat)
    requires k <= |ts|
    ensures RunFrom(prior, ts, k) == Pass(prior + RunFrom([], ts, k).errors, RunFrom([], ts, k).raised)
    decreases |ts| - k
  {
    if k < |ts| && ts[k].verdict.Ok? {
      var e := ts[k].err;
      if ts[k].verdict.value {
        RunFromPrior(prior, ts, k + 1);
        RunFromPrior([], ts, k + 1);
      } else {
        RunFromPrior(prior + [e], ts, k + 1);
        RunFromPrior([e], ts, k + 1);
        RunFromPrior([], ts, k + 1);
        assert [] + [e] == [e];
        assert prior + [e] + RunFrom([], ts, k + 1).errors == prior + ([e] + RunFrom([], ts, k + 1).errors);
      }
    } else if k == |ts| {
      assert prior + [] == prior;
    } else {
      assert prior + [] == prior;
    }
  }

  /** A pass raises exactly the exception of the first check that raises. */
  lemma {:induction false} RunFromRaised(prior: seq<RowError>, ts: seq<Check>, k: nat)
    requires k <= |ts|
    ensures RunFrom(prior, ts, k).raised == if Stop(ts, k) < |ts| then Some(ts[Stop(ts, k)].verdict.exc) else None
    decreases |ts| - k
  {
    if k < |ts| && ts[k].verdict.Ok? {
      RunFromRaised(if ts[k].verdict.value then prior else prior + [ts[k].err], ts, k + 1);
    }
  }

  /** A pass records, from check `k` on, the error of every failing check
      before the first one that raises, and no other; so it records nothing
      exactly when none of those fails. */
  lemma {:induction false} RunFromMembers(ts: seq<Check>, k: nat)
    requires k <= |ts|
    ensures forall e :: e in RunFrom([], ts, k).errors <==>
                          exists i :: k <= i < Stop(ts, k) && Fails(ts, i) && ts[i].err == e
    ensures RunFrom([], ts, k).errors == [] <==> forall i :: k <= i < Stop(ts, k) ==> !Fails(ts, i)
    decreases |ts| - k
  {
    if k < |ts| && ts[k].verdict.Ok? {
      RunFromMembers(ts, k + 1);
      assert Stop(ts, k) == Stop(ts, k + 1);
      if !ts[k].verdict.value {
        var e := ts[k].err;
        assert [] + [e] == [e];
        RunFromPrior([e], ts, k + 1);
        assert RunFrom([], ts, k).errors == [e] + RunFrom([], ts, k + 1).errors;
        assert Fails(ts, k) && k < Stop(ts, k);
      }
    }
  }

  /** Running a longer list of checks runs the shorter list it starts with,
      then carries on from where the shorter one ended unless it raised. */
  lemma {:induction false} RunFromExtends(prior: seq<RowError>, ts: seq<Check>, us: seq<Check>, k: nat)
    requires k <= |ts| <= |us| && ts == us[..|ts|]
    ensures var p := RunFrom(prior, ts, k);
            RunFrom(prior, us, k) == if p.raised.Some? then p else RunFrom(p.errors, us, |ts|)
    decreases |ts| - k
  {
    if k < |ts| {
      assert ts[k] == us[k];
      if ts[k].verdict.Ok? {
        var next := if ts[k].verdict.value then prior else prior + [ts[k].err];
        RunFromExtends(next, ts, us, k + 1);
      }
    }
  }

  /** Whether `errs` holds an error of type `t` on field `name`. */
  predicate Reports(errs: seq<RowError>, name: FieldName, t: ErrorType)
  {
    exists e :: e in errs && e.fieldName == name && e.errorType == t
  }

  /** No two checks record an error on the same field with the same type. */
  predicate Distinct(ts: seq<Check>)
  {
    forall i, j |
      0 <= i < |ts| && 0 <= j < |ts| && ts[i].err.fieldName == ts[j].err.fieldName &&
      ts[i].err.errorType == ts[j].err.errorType :: i == j
  }

  /** When every check records a field error of row `index` on tab `tab`, so
      does the pass. */
  lemma RunFieldErrors(ts: seq<Check>, index: int, tab: Tab)
    requires forall j :: 0 <= j < |ts| ==> ts[j].err.rowNumber == index && ts[j].err.errorType == Field && ts[j].err.tab == tab
    ensures FieldErrorsOf(Run(ts).errors, index, tab)
  {
    var errs := Run(ts).errors;
    RunFromMembers(ts, 0);
    forall i | 0 <= i < |errs|
      ensures errs[i].rowNumber == index && errs[i].errorType == Field && errs[i].tab == tab
    {
      assert errs[i] in errs;
    }
  }

  /** With distinct checks, a field is reported exactly when its check fails
      before the pass stops. */
  lemma RunReports(ts: seq<Check>, j: nat)
    requires Distinct(ts) && j < |ts|
    ensures Reports(Run(ts).errors, ts[j].err.fieldName, ts[j].err.errorType) <==> j < Stop(ts, 0) && Fails(ts, j)
  {
    RunFromMembers(ts, 0);
  }

  function FieldError(index: int, name: FieldName, value: FieldValue, tab: Tab): RowError
  {
    RowError(index, name, value, Field, tab)
  }

  /** The five checks both establishment shapes run, in order: siret,
      companyTypes, then the three subtype families, which raise on an
      absent `companyTypes`. */
  function EstablishmentCheck(d: UpdateFields, k: nat): Check
    requires k < 5
  {
    var tab := Etablissements;
    match k
    case 0 => Check(Ok(SiretIsValid(d.siret)), FieldError(d.index, Siret, TextValue(d.siret), tab))
    case 1 => Check(Ok(CompanyTypesAreValid(d.companyTypes)),
                    FieldError(d.index, CompanyTypes, ListValue(d.companyTypes), tab))
    case 2 => Check(SubtypesAreValid(d.collectorTypes, d.companyTypes, Taxonomy.CollectorParent, Taxonomy.CollectorTypes),
                    FieldError(d.index, CollectorTypes, ListValue(d.collectorTypes), tab))
    case 3 => Check(SubtypesAreValid(d.wasteProcessorTypes, d.companyTypes, Taxonomy.WasteProcessorParent,
                                     Taxonomy.WasteProcessorTypes),
                    FieldError(d.index, WasteProcessorTypes, ListValue(d.wasteProcessorTypes), tab))
    case 4 => Check(SubtypesAreValid(d.wasteVehiclesTypes, d.companyTypes, Taxonomy.WasteVehiclesParent,
                                     Taxonomy.WasteVehicleTypes),
                    FieldError(d.index, WasteVehiclesTypes, ListValue(d.wasteVehiclesTypes), tab))
  }

  /** `EtabUpdateRow.validate`: only the five establishment checks. */
  function UpdateTests(d: UpdateFields): (ts: seq<Check>)
    ensures |ts| == 5 && forall k :: 0 <= k < 5 ==> ts[k] == EstablishmentCheck(d, k)
  {
    seq(5, k requires 0 <= k < 5 => EstablishmentCheck(d, k))
  }

  /** The establishment cells of a create row. */
  function Establishment(d: CreateFields): UpdateFields
  {
    UpdateFields(d.index, d.siret, d.companyTypes, d.collectorTypes, d.wasteProcessorTypes, d.wasteVehiclesTypes)
  }

  /** `EtabCreateRow.validate`: the five establishment checks, then the phone
      and the contact email. */
  function CreateCheck(d: CreateFields, emailOk: string -> bool, k: nat): Check
    requires k < 7
  {
    if k < 5 then EstablishmentCheck(Establishment(d), k)
    else if k == 5 then
      Check(Ok(PhoneNumberIsValid(d.contactPhone)), FieldError(d.index, ContactPhone, TextValue(d.contactPhone), Etablissements))
    else
      Check(Ok(ContactEmailIsValid(d.contactEmail, emailOk)),
            FieldError(d.index, ContactEmail, TextValue(d.contactEmail), Etablissements))
  }

  function CreateTests(d: CreateFields, emailOk: string -> bool): (ts: seq<Check>)
    ensures |ts| == 7 && forall k :: 0 <= k < 7 ==> ts[k] == CreateCheck(d, emailOk, k)
  {
    seq(7, k requires 0 <= k < 7 => CreateCheck(d, emailOk, k))
  }

  /** `RoleRow.validate(etab_sirets)`: role, siret format, siret present among
      the establishments, email; none of them raises. */
  function RoleCheck(d: RoleFields, etabSirets: set<string>, emailOk: string -> bool, k: nat): Check
    requires k < 4
  {
    match k
    case 0 => Check(Ok(RoleIsValid(d.role)), FieldError(d.index, Role, TextValue(d.role), Roles))
    case 1 => Check(Ok(SiretIsValid(d.siret)), FieldError(d.index, Siret, TextValue(d.siret), Roles))
    case 2 => Check(Ok(In(d.siret, etabSirets)), RowError(d.index, Siret, TextValue(d.siret), SiretMissingFromEtab, Roles))
    case 3 => Check(Ok(RoleEmailIsValid(d.email, emailOk)), FieldError(d.index, Email, TextValue(d.email), Roles))
  }

  function RoleTests(d: RoleFields, etabSirets: set<string>, emailOk: string -> bool): (ts: seq<Check>)
    ensures |ts| == 4 && forall k :: 0 <= k < 4 ==> ts[k] == RoleCheck(d, etabSirets, emailOk, k)
  {
    seq(4, k requires 0 <= k < 4 => RoleCheck(d, etabSirets, emailOk, k))
  }

  /** A subtype check raises when `companyTypes` is absent and its own list is
      not empty; the first such check stops the pass. */
  predicate SubtypeRaises(companyTypes: Option<seq<string>>, collectorTypes: Option<seq<string>>,
                          wasteProcessorTypes: Option<seq<string>>, wasteVehiclesTypes: Option<seq<string>>)
  {
    companyTypes.None? && (ListTruthy(collectorTypes) || ListTruthy(wasteProcessorTypes) || ListTruthy(wasteVehiclesTypes))
  }

  /** The error `validate_has_admin` appends. */
  function NoAdminError(index: int, siret: Option<string>): RowError
  {
    RowError(index, Siret, TextValue(siret), SiretHasNoAdmin, Etablissements)
  }

  /** The error `mark_as_duplicate` appends. */
  function DuplicateError(index: int, email: Option<string>): RowError
  {
    RowError(index, Email, TextValue(email), DuplicateRole, Roles)
  }

  /** Every error is one of row `index`'s field errors on tab `tab`. */
  predicate FieldErrorsOf(errs: seq<RowError>, index: int, tab: Tab)
  {
    forall i :: 0 <= i < |errs| ==> errs[i].rowNumber == index && errs[i].errorType == Field && errs[i].tab == tab
  }

  /** The verdicts and errors of the establishment checks, read off their
      definitions: only a subtype check can raise, it raises TypeError, and
      only with an absent `companyTypes`, with which it cannot fail. */
  lemma EstablishmentVerdicts(d: UpdateFields, ts: seq<Check>)
    requires 5 <= |ts| && forall k :: 0 <= k < 5 ==> ts[k] == EstablishmentCheck(d, k)
    ensures ts[0].verdict == Ok(SiretIsValid(d.siret)) && ts[1].verdict == Ok(CompanyTypesAreValid(d.companyTypes))
    ensures ts[2].verdict == SubtypesAreValid(d.collectorTypes, d.companyTypes, Taxonomy.CollectorParent, Taxonomy.CollectorTypes)
    ensures ts[3].verdict == SubtypesAreValid(d.wasteProcessorTypes, d.companyTypes, Taxonomy.WasteProcessorParent, Taxonomy.WasteProcessorTypes)
    ensures ts[4].verdict == SubtypesAreValid(d.wasteVehiclesTypes, d.companyTypes, Taxonomy.WasteVehiclesParent, Taxonomy.WasteVehicleTypes)
    ensures ts[2].verdict.Raised? <==> ListTruthy(d.collectorTypes) && d.companyTypes.None?
    ensures ts[3].verdict.Raised? <==> ListTruthy(d.wasteProcessorTypes) && d.companyTypes.None?
    ensures ts[4].verdict.Raised? <==> ListTruthy(d.wasteVehiclesTypes) && d.companyTypes.None?
    ensures forall j :: 2 <= j < 5 && ts[j].verdict.Raised? ==> ts[j].verdict == Raised(TypeError)
    ensures forall j :: 2 <= j < 5 && Fails(ts, j) ==> d.companyTypes.Some?
    ensures forall j :: 0 <= j < 5 ==>
              ts[j].err.rowNumber == d.index && ts[j].err.errorType == Field && ts[j].err.tab == Etablissements
    ensures ts[0].err.fieldName == Siret && ts[1].err.fieldName == CompanyTypes && ts[2].err.fieldName == CollectorTypes
    ensures ts[3].err.fieldName == WasteProcessorTypes && ts[4].err.fieldName == WasteVehiclesTypes
  {
  }

  /** Where a pass stops when its first two checks cannot raise. */
  lemma StopAfterTwo(ts: seq<Check>)
    requires 5 <= |ts| && ts[0].verdict.Ok? && ts[1].verdict.Ok?
    ensures Stop(ts, 0) == if ts[2].verdict.Raised? then 2 else if ts[3].verdict.Raised? then 3
                           else if ts[4].verdict.Raised? then 4 else Stop(ts, 5)
  {
    assert Stop(ts, 0) == Stop(ts, 1) == Stop(ts, 2);
  }

  /** A pass none of whose remaining checks raises runs to the end. */
  lemma {:induction false} StopNone(ts: seq<Check>, k: nat)
    requires k <= |ts| && forall j :: k <= j < |ts| ==> ts[j].verdict.Ok?
    ensures Stop(ts, k) == |ts|
    decreases |ts| - k
  {
    if k < |ts| {
      StopNone(ts, k + 1);
    }
  }

  /** Where the establishment checks stop: at the first subtype family that
      meets an absent `companyTypes` with a non-empty list, else after all
      five; a failing subtype check always lies before the stop. */
  lemma EstablishmentStop(d: UpdateFields, ts: seq<Check>)
    requires 5 <= |ts| && forall k :: 0 <= k < 5 ==> ts[k] == EstablishmentCheck(d, k)
    ensures Stop(ts, 0) >= 2
    ensures SubtypeRaises(d.companyTypes, d.collectorTypes, d.wasteProcessorTypes, d.wasteVehiclesTypes) <==> Stop(ts, 0) < 5
    ensures Stop(ts, 0) < 5 ==> ts[Stop(ts, 0)].verdict == Raised(TypeError)
    ensures forall j :: 2 <= j < 5 && Fails(ts, j) ==> j < Stop(ts, 0)
  {
    EstablishmentVerdicts(d, ts);
    StopAfterTwo(ts);
  }

  /** The establishment part of a pass whose first five checks are the
      establishment checks and whose further checks cannot raise: it raises
      TypeError exactly when a non-empty subtype list meets an absent
      `companyTypes`, and then only siret and companyTypes errors are left;
      siret and companyTypes are reported exactly when invalid and each
      subtype family exactly when its rule fails; the pass is clean exactly
      when it does not raise and no check fails. */
  lemma EstablishmentFacts(d: UpdateFields, ts: seq<Check>)
    requires 5 <= |ts| && forall k :: 0 <= k < 5 ==> ts[k] == EstablishmentCheck(d, k)
    requires Distinct(ts)
    requires forall j :: 5 <= j < |ts| ==>
               ts[j].verdict.Ok? && ts[j].err.rowNumber == d.index && ts[j].err.errorType == Field &&
               ts[j].err.tab == Etablissements
    ensures var v := Run(ts);
      && v.raised == (if SubtypeRaises(d.companyTypes, d.collectorTypes, d.wasteProcessorTypes, d.wasteVehiclesTypes) then Some(TypeError) else None)
      && (v.raised.Some? ==> forall i :: 0 <= i < |v.errors| ==>
            v.errors[i].fieldName == Siret || v.errors[i].fieldName == CompanyTypes)
      && (!SubtypeRaises(d.companyTypes, d.collectorTypes, d.wasteProcessorTypes, d.wasteVehiclesTypes) ==> Stop(ts, 0) == |ts|)
      && (v == Pass([], None) <==>
            && SiretIsValid(d.siret) && CompanyTypesAreValid(d.companyTypes)
            && SubtypesAreValid(d.collectorTypes, d.companyTypes, Taxonomy.CollectorParent, Taxonomy.CollectorTypes) == Ok(true) && SubtypesAreValid(d.wasteProcessorTypes, d.companyTypes, Taxonomy.WasteProcessorParent, Taxonomy.WasteProcessorTypes) == Ok(true) && SubtypesAreValid(d.wasteVehiclesTypes, d.companyTypes, Taxonomy.WasteVehiclesParent, Taxonomy.WasteVehicleTypes) == Ok(true)
            && forall j :: 5 <= j < |ts| ==> !Fails(ts, j))
      && FieldErrorsOf(v.errors, d.index, Etablissements)
      && (Reports(v.errors, Siret, Field) <==> !SiretIsValid(d.siret))
      && (Reports(v.errors, CompanyTypes, Field) <==> !CompanyTypesAreValid(d.companyTypes))
      && (Reports(v.errors, CollectorTypes, Field) <==> SubtypesAreValid(d.collectorTypes, d.companyTypes, Taxonomy.CollectorParent, Taxonomy.CollectorTypes) == Ok(false))
      && (Reports(v.errors, WasteProcessorTypes, Field) <==> SubtypesAreValid(d.wasteProcessorTypes, d.companyTypes, Taxonomy.WasteProcessorParent, Taxonomy.WasteProcessorTypes) == Ok(false))
      && (Reports(v.errors, WasteVehiclesTypes, Field) <==> SubtypesAreValid(d.wasteVehiclesTypes, d.companyTypes, Taxonomy.WasteVehiclesParent, Taxonomy.WasteVehicleTypes) == Ok(false))
  {
    EstablishmentOutcome(d, ts);
    EstablishmentReports(d, ts);
  }

  /** How the establishment part of such a pass ends, and when it is clean. */
  lemma EstablishmentOutcome(d: UpdateFields, ts: seq<Check>)
    requires 5 <= |ts| && forall k :: 0 <= k < 5 ==> ts[k] == EstablishmentCheck(d, k)
    requires Distinct(ts)
    requires forall j :: 5 <= j < |ts| ==>
               ts[j].verdict.Ok? && ts[j].err.rowNumber == d.index && ts[j].err.errorType == Field &&
               ts[j].err.tab == Etablissements
    ensures var v := Run(ts);
      && v.raised == (if SubtypeRaises(d.companyTypes, d.collectorTypes, d.wasteProcessorTypes, d.wasteVehiclesTypes) then Some(TypeError) else None)
      && (v.raised.Some? ==> forall i :: 0 <= i < |v.errors| ==>
            v.errors[i].fieldName == Siret || v.errors[i].fieldName == CompanyTypes)
      && (!SubtypeRaises(d.companyTypes, d.collectorTypes, d.wasteProcessorTypes, d.wasteVehiclesTypes) ==> Stop(ts, 0) == |ts|)
      && (v == Pass([], None) <==>
            && SiretIsValid(d.siret) && CompanyTypesAreValid(d.companyTypes)
            && SubtypesAreValid(d.collectorTypes, d.companyTypes, Taxonomy.CollectorParent, Taxonomy.CollectorTypes) == Ok(true) && SubtypesAreValid(d.wasteProcessorTypes, d.companyTypes, Taxonomy.WasteProcessorParent, Taxonomy.WasteProcessorTypes) == Ok(true) && SubtypesAreValid(d.wasteVehiclesTypes, d.companyTypes, Taxonomy.WasteVehiclesParent, Taxonomy.WasteVehicleTypes) == Ok(true)
            && forall j :: 5 <= j < |ts| ==> !Fails(ts, j))
  {
    EstablishmentVerdicts(d, ts);
    EstablishmentStop(d, ts);
    if !SubtypeRaises(d.companyTypes, d.collectorTypes, d.wasteProcessorTypes, d.wasteVehiclesTypes) {
      StopNone(ts, 0);
    }
    RunFromRaised([], ts, 0);
    RunFromMembers(ts, 0);
    var v := Run(ts);
    if v.raised.Some? {
      forall i | 0 <= i < |v.errors|
        ensures v.errors[i].fieldName == Siret || v.errors[i].fieldName == CompanyTypes
      {
        assert v.errors[i] in v.errors;
      }
    }
    if v == Pass([], None) {
      assert !Fails(ts, 0) && !Fails(ts, 1) && !Fails(ts, 2) && !Fails(ts, 3) && !Fails(ts, 4);
    }
  }

  /** Which fields the establishment part of such a pass reports. */
  lemma EstablishmentReports(d: UpdateFields, ts: seq<Check>)
    requires 5 <= |ts| && forall k :: 0 <= k < 5 ==> ts[k] == EstablishmentCheck(d, k)
    requires Distinct(ts)
    requires forall j :: 5 <= j < |ts| ==>
               ts[j].verdict.Ok? && ts[j].err.rowNumber == d.index && ts[j].err.errorType == Field &&
               ts[j].err.tab == Etablissements
    ensures var v := Run(ts);
      && FieldErrorsOf(v.errors, d.index, Etablissements)
      && (Reports(v.errors, Siret, Field) <==> !SiretIsValid(d.siret))
      && (Reports(v.errors, CompanyTypes, Field) <==> !CompanyTypesAreValid(d.companyTypes))
      && (Reports(v.errors, CollectorTypes, Field) <==> SubtypesAreValid(d.collectorTypes, d.companyTypes, Taxonomy.CollectorParent, Taxonomy.CollectorTypes) == Ok(false))
      && (Reports(v.errors, WasteProcessorTypes, Field) <==> SubtypesAreValid(d.wasteProcessorTypes, d.companyTypes, Taxonomy.WasteProcessorParent, Taxonomy.WasteProcessorTypes) == Ok(false))
      && (Reports(v.errors, WasteVehiclesTypes, Field) <==> SubtypesAreValid(d.wasteVehiclesTypes, d.companyTypes, Taxonomy.WasteVehiclesParent, Taxonomy.WasteVehicleTypes) == Ok(false))
  {
    EstablishmentVerdicts(d, ts);
    EstablishmentStop(d, ts);
    RunFieldErrors(ts, d.index, Etablissements);
    RunReports(ts, 0);
    RunReports(ts, 1);
    RunReports(ts, 2);
    RunReports(ts, 3);
    RunReports(ts, 4);
  }

  /** The establishment pass of an update row, stated on its cells: the
      establishment facts, and a pass that neither raises nor records
      anything is exactly one where every rule holds. */
  lemma UpdateValidationSpec(d: UpdateFields)
    ensures var v := Run(UpdateTests(d));
      && v.raised == (if SubtypeRaises(d.companyTypes, d.collectorTypes, d.wasteProcessorTypes, d.wasteVehiclesTypes) then Some(TypeError) else None)
      && FieldErrorsOf(v.errors, d.index, Etablissements)
      && (Reports(v.errors, Siret, Field) <==> !SiretIsValid(d.siret))
      && (Reports(v.errors, CompanyTypes, Field) <==> !CompanyTypesAreValid(d.companyTypes))
      && (Reports(v.errors, CollectorTypes, Field) <==> SubtypesAreValid(d.collectorTypes, d.companyTypes, Taxonomy.CollectorParent, Taxonomy.CollectorTypes) == Ok(false))
      && (Reports(v.errors, WasteProcessorTypes, Field) <==> SubtypesAreValid(d.wasteProcessorTypes, d.companyTypes, Taxonomy.WasteProcessorParent, Taxonomy.WasteProcessorTypes) == Ok(false))
      && (Reports(v.errors, WasteVehiclesTypes, Field) <==> SubtypesAreValid(d.wasteVehiclesTypes, d.companyTypes, Taxonomy.WasteVehiclesParent, Taxonomy.WasteVehicleTypes) == Ok(false))
      && (v.raised.Some? ==> forall i :: 0 <= i < |v.errors| ==>
            v.errors[i].fieldName == Siret || v.errors[i].fieldName == CompanyTypes)
      && (v == Pass([], None) <==>
            && SiretIsValid(d.siret) && CompanyTypesAreValid(d.companyTypes)
            && SubtypesAreValid(d.collectorTypes, d.companyTypes, Taxonomy.CollectorParent, Taxonomy.CollectorTypes) == Ok(true) && SubtypesAreValid(d.wasteProcessorTypes, d.companyTypes, Taxonomy.WasteProcessorParent, Taxonomy.WasteProcessorTypes) == Ok(true) && SubtypesAreValid(d.wasteVehiclesTypes, d.companyTypes, Taxonomy.WasteVehiclesParent, Taxonomy.WasteVehicleTypes) == Ok(true))
  {
    var ts := UpdateTests(d);
    EstablishmentVerdicts(d, ts);
    assert Distinct(ts);
    EstablishmentFacts(d, ts);
  }

  /** The create pass: the establishment facts, plus the phone and the
      contact email each reported exactly when the pass gets to it and it
      fails; it is clean exactly when the update pass over the same
      establishment cells is clean and the phone and email are valid. */
  lemma CreateValidationSpec(d: CreateFields, emailOk: string -> bool)
    ensures var v := Run(CreateTests(d, emailOk));
            var raises := SubtypeRaises(d.companyTypes, d.collectorTypes, d.wasteProcessorTypes, d.wasteVehiclesTypes);
      && v.raised == (if raises then Some(TypeError) else None)
      && FieldErrorsOf(v.errors, d.index, Etablissements)
      && (Reports(v.errors, Siret, Field) <==> !SiretIsValid(d.siret))
      && (Reports(v.errors, CompanyTypes, Field) <==> !CompanyTypesAreValid(d.companyTypes))
      && (Reports(v.errors, CollectorTypes, Field) <==> SubtypesAreValid(d.collectorTypes, d.companyTypes, Taxonomy.CollectorParent, Taxonomy.CollectorTypes) == Ok(false))
      && (Reports(v.errors, WasteProcessorTypes, Field) <==> SubtypesAreValid(d.wasteProcessorTypes, d.companyTypes, Taxonomy.WasteProcessorParent, Taxonomy.WasteProcessorTypes) == Ok(false))
      && (Reports(v.errors, WasteVehiclesTypes, Field) <==> SubtypesAreValid(d.wasteVehiclesTypes, d.companyTypes, Taxonomy.WasteVehiclesParent, Taxonomy.WasteVehicleTypes) == Ok(false))
      && (v.raised.Some? ==> forall i :: 0 <= i < |v.errors| ==>
            v.errors[i].fieldName == Siret || v.errors[i].fieldName == CompanyTypes)
      && (Reports(v.errors, ContactPhone, Field) <==> !raises && !PhoneNumberIsValid(d.contactPhone))
      && (Reports(v.errors, ContactEmail, Field) <==> !raises && !ContactEmailIsValid(d.contactEmail, emailOk))
      && (v == Pass([], None) <==>
            Run(UpdateTests(Establishment(d))) == Pass([], None) &&
            PhoneNumberIsValid(d.contactPhone) && ContactEmailIsValid(d.contactEmail, emailOk))
  {
    var ts := CreateTests(d, emailOk);
    var e := Establishment(d);
    assert forall k :: 0 <= k < 5 ==> ts[k] == EstablishmentCheck(e, k);
    EstablishmentVerdicts(e, ts);
    assert Distinct(ts);
    EstablishmentFacts(e, ts);
    RunReports(ts, 5);
    RunReports(ts, 6);
    UpdateValidationSpec(e);
    assert (forall j :: 5 <= j < |ts| ==> !Fails(ts, j)) <==> !Fails(ts, 5) && !Fails(ts, 6);
  }

  /** The create pass runs the update pass's checks first: it stops where
      that one stops, and otherwise appends to its errors. */
  lemma CreateExtendsUpdate(d: CreateFields, emailOk: string -> bool)
    ensures var c, u := Run(CreateTests(d, emailOk)), Run(UpdateTests(Establishment(d)));
      && c.raised == u.raised
      && u.errors <= c.errors
      && (u.raised.Some? ==> c.errors == u.errors)
  {
    var ts, us := UpdateTests(Establishment(d)), CreateTests(d, emailOk);
    assert ts == us[..5];
    RunFromExtends([], ts, us, 0);
    var u := Run(ts);
    if u.raised.None? {
      assert forall j :: 5 <= j < 7 ==> us[j].verdict.Ok?;
      StopNone(us, 5);
      RunFromPrior(u.errors, us, 5);
      RunFromRaised(u.errors, us, 5);
    }
  }

  /** The role pass never raises; each field is reported exactly when its
      check fails, and nothing is recorded exactly when all four hold. */
  lemma RoleValidationSpec(d: RoleFields, etabSirets: set<string>, emailOk: string -> bool)
    ensures var v := Run(RoleTests(d, etabSirets, emailOk));
      && v.raised == None
      && (forall i :: 0 <= i < |v.errors| ==> v.errors[i].rowNumber == d.index && v.errors[i].tab == Roles)
      && (Reports(v.errors, Role, Field) <==> !RoleIsValid(d.role))
      && (Reports(v.errors, Siret, Field) <==> !SiretIsValid(d.siret))
      && (Reports(v.errors, Siret, SiretMissingFromEtab) <==> !In(d.siret, etabSirets))
      && (Reports(v.errors, Email, Field) <==> !RoleEmailIsValid(d.email, emailOk))
      && (v.errors == [] <==> RoleIsValid(d.role) && SiretIsValid(d.siret) && In(d.siret, etabSirets) &&
                              RoleEmailIsValid(d.email, emailOk))
  {
    var ts := RoleTests(d, etabSirets, emailOk);
    assert forall j :: 0 <= j < 4 ==> ts[j].verdict.Ok? && ts[j].err.rowNumber == d.index && ts[j].err.tab == Roles;
    StopNone(ts, 0);
    RunFromRaised([], ts, 0);
    RunFromMembers(ts, 0);
    var v := Run(ts);
    forall i | 0 <= i < |v.errors|
      ensures v.errors[i].rowNumber == d.index && v.errors[i].tab == Roles
    {
      assert v.errors[i] in v.errors;
    }
    assert Distinct(ts);
    RunReports(ts, 0);
    RunReports(ts, 1);
    RunReports(ts, 2);
    RunReports(ts, 3);
  }

  /** A pass only records errors its checks carry, so it renders as they do. */
  lemma RunRenders(ts: seq<Check>)
    requires forall j :: 0 <= j < |ts| ==> (Verbose(ts[j].err).Some? <==> ts[j].err.fieldName != ContactPhone)
    ensures forall e :: e in Run(ts).errors ==> (Verbose(e).Some? <==> e.fieldName != ContactPhone)
    ensures (forall j :: 0 <= j < |ts| ==> ts[j].err.fieldName != ContactPhone) ==>
              forall e :: e in Run(ts).errors ==> Verbose(e).Some?
  {
    RunFromMembers(ts, 0);
  }

  /** Every error a create pass records has a message, except a
      `contactPhone` error, for which the message table has no entry. */
  lemma CreateErrorsRender(d: CreateFields, emailOk: string -> bool)
    ensures forall e :: e in Run(CreateTests(d, emailOk)).errors ==> (Verbose(e).Some? <==> e.fieldName != ContactPhone)
  {
    var ts := CreateTests(d, emailOk);
    forall j | 0 <= j < |ts|
      ensures Verbose(ts[j].err).Some? <==> ts[j].err.fieldName != ContactPhone
    {
      VerboseTotality(ts[j].err);
    }
    RunRenders(ts);
  }

  /** Every error an update pass or a role pass records has a message, and so
      do the referential errors. */
  lemma UpdateAndRoleErrorsRender(u: UpdateFields, r: RoleFields, etabSirets: set<string>, emailOk: string -> bool)
    ensures forall e :: e in Run(UpdateTests(u)).errors ==> Verbose(e).Some?
    ensures forall e :: e in Run(RoleTests(r, etabSirets, emailOk)).errors ==> Verbose(e).Some?
    ensures Verbose(NoAdminError(u.index, u.siret)).Some? && Verbose(DuplicateError(r.index, r.email)).Some?
  {
    var us := UpdateTests(u);
    forall j | 0 <= j < |us|
      ensures Verbose(us[j].err).Some? && us[j].err.fieldName != ContactPhone
    {
      VerboseTotality(us[j].err);
    }
    RunRenders(us);
    var rs := RoleTests(r, etabSirets, emailOk);
    forall j | 0 <= j < |rs|
      ensures Verbose(rs[j].err).Some? && rs[j].err.fieldName != ContactPhone
    {
      VerboseTotality(rs[j].err);
    }
    RunRenders(rs);
  }

  // ---------------------------------------------------------------------
  // Shared row behaviour

  /** `is_valid`: reading it before validation raises; afterwards it is true
      exactly when no error was recorded. */
  function IsValidOf(errors: seq<RowError>, validated: bool): Outcome<bool>
  {
    if !validated then Raised(NotValidated) else Ok(errors == [])
  }

  lemma IsValidGate(errors: seq<RowError>, validated: bool)
    ensures IsValidOf(errors, validated).Raised? <==> !validated
    ensures IsValidOf(errors, validated) == Ok(true) <==> validated && errors == []
    ensures IsValidOf(errors, validated) == Ok(false) <==> validated && errors != []
  {
  }

  /** One cell of an `as_list` rendering: text, or the valid/error marker the
      last column shows. */
  datatype Cell = Plain(text: Option<string>) | Marker(valid: bool)

  predicate AllPresent(lists: seq<Option<seq<string>>>)
  {
    forall i :: 0 <= i < |lists| ==> lists[i].Some?
  }

  /** `as_list` evaluates its cells left to right: a comma-join of an absent
      list raises TypeError before the final `is_valid` read can raise. */
  function ListRendering(prefix: seq<Option<string>>, lists: seq<Option<seq<string>>>,
                         suffix: seq<Option<string>>, errors: seq<RowError>, validated: bool): Outcome<seq<Cell>>
  {
    if !AllPresent(lists) then Raised(TypeError)
    else if !validated then Raised(NotValidated)
    else Ok(seq(|prefix|, i requires 0 <= i < |prefix| => Plain(prefix[i])) +
            seq(|lists|, i requires 0 <= i < |lists| => Plain(Some(Join(',', lists[i].value)))) +
            seq(|suffix|, i requires 0 <= i < |suffix| => Plain(suffix[i])) +
            [Marker(errors == [])])
  }

  /** The JSON values of `as_json`: None becomes the empty list. */
  datatype Json = JText(s: string) | JList(xs: seq<string>)

  function JsonText(o: Option<string>): Json
  {
    if o.None? then JList([]) else JText(o.value)
  }

  function JsonList(o: Option<seq<string>>): Json
  {
    if o.None? then JList([]) else JList(o.value)
  }

  /** `EtabUpdateRow.as_json`: the five export fields, the siret renamed `orgId`. */
  function UpdateAsJson(d: UpdateFields): map<string, Json>
  {
    map["orgId" := JsonText(d.siret), "companyTypes" := JsonList(d.companyTypes),
        "collectorTypes" := JsonList(d.collectorTypes), "wasteProcessorTypes" := JsonList(d.wasteProcessorTypes),
        "wasteVehiclesTypes" := JsonList(d.wasteVehiclesTypes)]
  }

  /** Reading the export back: `orgId` carries the siret, every category field
      carries its list or [] for an absent one, and neither the internal
      attributes nor the name `siret` are exported. */
  lemma UpdateAsJsonShape(d: UpdateFields)
    ensures var j := UpdateAsJson(d);
      && j.Keys == {"orgId", "companyTypes", "collectorTypes", "wasteProcessorTypes", "wasteVehiclesTypes"}
      && "siret" !in j && "errors" !in j && "validated" !in j && "index" !in j
      && (d.siret.Some? ==> j["orgId"] == JText(d.siret.value))
      && (d.siret.None? ==> j["orgId"] == JList([]))
      && j["companyTypes"] == JList(if d.companyTypes.Some? then d.companyTypes.value else [])
      && j["collectorTypes"] == JList(if d.collectorTypes.Some? then d.collectorTypes.value else [])
      && j["wasteProcessorTypes"] == JList(if d.wasteProcessorTypes.Some? then d.wasteProcessorTypes.value else [])
      && j["wasteVehiclesTypes"] == JList(if d.wasteVehiclesTypes.Some? then d.wasteVehiclesTypes.value else [])
  {
  }

  // ---------------------------------------------------------------------
  // The row classes

  class EtabCreateRow {
    const data: CreateFields
    var errors: seq<RowError>
    var validated: bool

    constructor (d: CreateFields)
      ensures data == d && errors == [] && !validated
    {
      data := d;
      errors := [];
      validated := false;
    }

    function IsValid(): Outcome<bool>
      reads this
    {
      IsValidOf(errors, validated)
    }

    /** Runs the checks in order, appending one field error per failing check
        to the errors already there, and marks the row validated; a subtype
        check that raises stops it with the errors appended so far. */
    method Validate(emailOk: string -> bool) returns (exc: Option<Exc>)
      modifies this
      ensures Pass(errors, exc) == RunFrom(old(errors), CreateTests(data, emailOk), 0)
      ensures validated == (old(validated) || exc.None?)
    {
      ghost var ts := CreateTests(data, emailOk);
      ghost var r := RunFrom(errors, ts, 0);
      var d, tab, errs := data, Etablissements, errors;
      if !SiretIsValid(d.siret) {
        errs := errs + [FieldError(d.index, Siret, TextValue(d.siret), tab)];
      }
      assert RunFrom(errs, ts, 1) == r;
      if !CompanyTypesAreValid(d.companyTypes) {
        errs := errs + [FieldError(d.index, CompanyTypes, ListValue(d.companyTypes), tab)];
      }
      assert RunFrom(errs, ts, 2) == r;
      var ok := SubtypesAreValid(d.collectorTypes, d.companyTypes, Taxonomy.CollectorParent, Taxonomy.CollectorTypes);
      if ok.Raised? {
        errors := errs;
        return Some(ok.exc);
      }
      if !ok.value {
        errs := errs + [FieldError(d.index, CollectorTypes, ListValue(d.collectorTypes), tab)];
      }
      assert RunFrom(errs, ts, 3) == r;
      ok := SubtypesAreValid(d.wasteProcessorTypes, d.companyTypes, Taxonomy.WasteProcessorParent, Taxonomy.WasteProcessorTypes);
      if ok.Raised? {
        errors := errs;
        return Some(ok.exc);
      }
      if !ok.value {
        errs := errs + [FieldError(d.index, WasteProcessorTypes, ListValue(d.wasteProcessorTypes), tab)];
      }
      assert RunFrom(errs, ts, 4) == r;
      ok := SubtypesAreValid(d.wasteVehiclesTypes, d.companyTypes, Taxonomy.WasteVehiclesParent, Taxonomy.WasteVehicleTypes);
      if ok.Raised? {
        errors := errs;
        return Some(ok.exc);
      }
      if !ok.value {
        errs := errs + [FieldError(d.index, WasteVehiclesTypes, ListValue(d.wasteVehiclesTypes), tab)];
      }
      assert RunFrom(errs, ts, 5) == r;
      if !PhoneNumberIsValid(d.contactPhone) {
        errs := errs + [FieldError(d.index, ContactPhone, TextValue(d.contactPhone), tab)];
      }
      assert RunFrom(errs, ts, 6) == r;
      if !ContactEmailIsValid(d.contactEmail, emailOk) {
        errs := errs + [FieldError(d.index, ContactEmail, TextValue(d.contactEmail), tab)];
      }
      assert RunFrom(errs, ts, 7) == r;
      errors, validated := errs, true;
      exc := None;
    }

    /** Appends a `siret_has_no_admin` error when the siret has no admin; only
        then does it set `validated`. */
    method ValidateHasAdmin(adminSirets: set<string>)
      modifies this
      ensures !In(data.siret, adminSirets) ==>
                errors == old(errors) + [NoAdminError(data.index, data.siret)] && validated
      ensures In(data.siret, adminSirets) ==> errors == old(errors) && validated == old(validated)
    {
      if !In(data.siret, adminSirets) {
        errors := errors + [NoAdminError(data.index, data.siret)];
        validated := true;
      }
    }

    /** `as_list`: row number, the cells in column order with the four category
        lists comma-joined, then the valid/error marker. */
    function AsList(): Outcome<seq<Cell>>
      reads this
    {
      ListRendering(
        [Some(IntToString(data.index)), data.siret, data.gerepId],
        [data.companyTypes, data.collectorTypes, data.wasteProcessorTypes, data.wasteVehiclesTypes],
        [data.givenName, data.contactEmail, data.contactPhone, data.contact, data.website],
        errors, validated)
    }
  }

  class EtabUpdateRow {
    const data: UpdateFields
    var errors: seq<RowError>
    var validated: bool

    constructor (d: UpdateFields)
      ensures data == d && errors == [] && !validated
    {
      data := d;
      errors := [];
      validated := false;
    }

    function IsValid(): Outcome<bool>
      reads this
    {
      IsValidOf(errors, validated)
    }

    /** The five establishment checks. (This shape's subtype predicates return
        `all(matches) and len(matches)`, whose truth value is that of
        `all(matches)` since the list is non-empty there.) */
    method Validate() returns (exc: Option<Exc>)
      modifies this
      ensures Pass(errors, exc) == RunFrom(old(errors), UpdateTests(data), 0)
      ensures validated == (old(validated) || exc.None?)
    {
      ghost var ts := UpdateTests(data);
      ghost var r := RunFrom(errors, ts, 0);
      var d, tab, errs := data, Etablissements, errors;
      if !SiretIsValid(d.siret) {
        errs := errs + [FieldError(d.index, Siret, TextValue(d.siret), tab)];
      }
      assert RunFrom(errs, ts, 1) == r;
      if !CompanyTypesAreValid(d.companyTypes) {
        errs := errs + [FieldError(d.index, CompanyTypes, ListValue(d.companyTypes), tab)];
      }
      assert RunFrom(errs, ts, 2) == r;
      var ok := SubtypesAreValid(d.collectorTypes, d.companyTypes, Taxonomy.CollectorParent, Taxonomy.CollectorTypes);
      if ok.Raised? {
        errors := errs;
        return Some(ok.exc);
      }
      if !ok.value {
        errs := errs + [FieldError(d.index, CollectorTypes, ListValue(d.collectorTypes), tab)];
      }
      assert RunFrom(errs, ts, 3) == r;
      ok := SubtypesAreValid(d.wasteProcessorTypes, d.companyTypes, Taxonomy.WasteProcessorParent, Taxonomy.WasteProcessorTypes);
      if ok.Raised? {
        errors := errs;
        return Some(ok.exc);
      }
      if !ok.value {
        errs := errs + [FieldError(d.index, WasteProcessorTypes, ListValue(d.wasteProcessorTypes), tab)];
      }
      assert RunFrom(errs, ts, 4) == r;
      ok := SubtypesAreValid(d.wasteVehiclesTypes, d.companyTypes, Taxonomy.WasteVehiclesParent, Taxonomy.WasteVehicleTypes);
      if ok.Raised? {
        errors := errs;
        return Some(ok.exc);
      }
      if !ok.value {
        errs := errs + [FieldError(d.index, WasteVehiclesTypes, ListValue(d.wasteVehiclesTypes), tab)];
      }
      assert RunFrom(errs, ts, 5) == r;
      errors, validated := errs, true;
      exc := None;
    }

    function AsList(): Outcome<seq<Cell>>
      reads this
    {
      ListRendering(
        [Some(IntToString(data.index)), data.siret],
        [data.companyTypes, data.collectorTypes, data.wasteProcessorTypes, data.wasteVehiclesTypes],
        [], errors, validated)
    }

    function AsJson(): map<string, Json>
    {
      UpdateAsJson(data)
    }
  }

  class RoleRow {
    const data: RoleFields
    var errors: seq<RowError>
    var validated: bool

    constructor (d: RoleFields)
      ensures data == d && errors == [] && !validated
    {
      data := d;
      errors := [];
      validated := false;
    }

    function IsValid(): Outcome<bool>
      reads this
    {
      IsValidOf(errors, validated)
    }

    /** Runs the four role checks independently, appending one error per
        failing check, and marks the row validated. */
    method Validate(etabSirets: set<string>, emailOk: string -> bool)
      modifies this
      ensures Pass(errors, None) == RunFrom(old(errors), RoleTests(data, etabSirets, emailOk), 0)
      ensures validated
    {
      ghost var ts := RoleTests(data, etabSirets, emailOk);
      ghost var r := RunFrom(errors, ts, 0);
      var d, errs := data, errors;
      if !RoleIsValid(d.role) {
        errs := errs + [FieldError(d.index, Role, TextValue(d.role), Roles)];
      }
      assert RunFrom(errs, ts, 1) == r;
      if !SiretIsValid(d.siret) {
        errs := errs + [FieldError(d.index, Siret, TextValue(d.siret), Roles)];
      }
      assert RunFrom(errs, ts, 2) == r;
      if !In(d.siret, etabSirets) {
        errs := errs + [RowError(d.index, Siret, TextValue(d.siret), SiretMissingFromEtab, Roles)];
      }
      assert RunFrom(errs, ts, 3) == r;
      if !RoleEmailIsValid(d.email, emailOk) {
        errs := errs + [FieldError(d.index, Email, TextValue(d.email), Roles)];
      }
      assert RunFrom(errs, ts, 4) == r;
      errors, validated := errs, true;
    }

    /** Appends one `duplicate_role` error on the email field. */
    method MarkAsDuplicate()
      modifies this
      ensures errors == old(errors) + [DuplicateError(data.index, data.email)]
      ensures validated == old(validated)
    {
      errors := errors + [DuplicateError(data.index, data.email)];
    }

    function AsList(): Outcome<seq<Cell>>
      reads this
    {
      ListRendering([Some(IntToString(data.index)), data.siret, data.email, data.role], [], [],
                    errors, validated)
    }
  }

  /** The first `as_list` cell, `str(index)`: for a row number it is a run of
      decimal digits that reads back as that number. */
  predicate NumberCell(c: Cell, n: int)
  {
    n >= 0 ==>
      && c.Plain? && c.text.Some?
      && (forall i :: 0 <= i < |c.text.value| ==> '0' <= c.text.value[i] <= '9')
      && DecimalValue(c.text.value) == n
  }

  /** A category cell of `as_list`: the comma-join of a present list. */
  predicate JoinedCell(c: Cell, l: Option<seq<string>>)
  {
    l.Some? && c == Plain(Some(Join(',', l.value)))
  }

  /** The rendering's first cell reads back as the row number. */
  lemma NumberCellOf(n: int)
    ensures NumberCell(Plain(Some(IntToString(n))), n)
  {
    if n >= 0 {
      NatToStringRoundTrip(n);
    }
  }

  /** A category cell splits back into its list when the list is non-empty
      and its items hold no comma, as the taxonomy's values do. */
  lemma JoinedCellSplits(c: Cell, l: Option<seq<string>>)
    requires JoinedCell(c, l)
    requires l.value != [] && forall i :: 0 <= i < |l.value| ==> ',' !in l.value[i]
    ensures c.text.Some? && Split(',', c.text.value) == l.value
  {
    SplitJoin(',', l.value);
  }

  /** `as_list` raises TypeError when a category list is absent, whether or
      not the row was validated, and otherwise NotValidated before
      validation; a validated row with all its lists renders as the row
      number, the twelve cells in column order with the four category lists
      comma-joined, and the marker, valid exactly when there is no error. */
  lemma CreateAsListSpec(r: EtabCreateRow)
    ensures r.AsList().Raised? <==>
              !r.validated || r.data.companyTypes.None? || r.data.collectorTypes.None? ||
              r.data.wasteProcessorTypes.None? || r.data.wasteVehiclesTypes.None?
    ensures r.AsList().Raised? ==>
              (r.AsList().exc == TypeError <==>
                 r.data.companyTypes.None? || r.data.collectorTypes.None? ||
                 r.data.wasteProcessorTypes.None? || r.data.wasteVehiclesTypes.None?)
    ensures r.AsList().Ok? ==>
      var cells := r.AsList().value;
      && |cells| == 13
      && NumberCell(cells[0], r.data.index)
      && cells[1] == Plain(r.data.siret) && cells[2] == Plain(r.data.gerepId)
      && JoinedCell(cells[3], r.data.companyTypes) && JoinedCell(cells[4], r.data.collectorTypes)
      && JoinedCell(cells[5], r.data.wasteProcessorTypes) && JoinedCell(cells[6], r.data.wasteVehiclesTypes)
      && cells[7] == Plain(r.data.givenName) && cells[8] == Plain(r.data.contactEmail)
      && cells[9] == Plain(r.data.contactPhone) && cells[10] == Plain(r.data.contact)
      && cells[11] == Plain(r.data.website)
      && cells[12] == Marker(r.errors == [])
  {
    var lists := [r.data.companyTypes, r.data.collectorTypes, r.data.wasteProcessorTypes, r.data.wasteVehiclesTypes];
    assert AllPresent(lists) <==> lists[0].Some? && lists[1].Some? && lists[2].Some? && lists[3].Some?;
    NumberCellOf(r.data.index);
  }

  /** The update row's `as_list`: the same two gates, then seven cells: the
      row number, the siret, the four category lists comma-joined, the marker. */
  lemma UpdateAsListSpec(r: EtabUpdateRow)
    ensures r.AsList().Raised? <==>
              !r.validated || r.data.companyTypes.None? || r.data.collectorTypes.None? ||
              r.data.wasteProcessorTypes.None? || r.data.wasteVehiclesTypes.None?
    ensures r.AsList().Raised? ==>
              (r.AsList().exc == TypeError <==>
                 r.data.companyTypes.None? || r.data.collectorTypes.None? ||
                 r.data.wasteProcessorTypes.None? || r.data.wasteVehiclesTypes.None?)
    ensures r.AsList().Ok? ==>
      var cells := r.AsList().value;
      && |cells| == 7
      && NumberCell(cells[0], r.data.index)
      && cells[1] == Plain(r.data.siret)
      && JoinedCell(cells[2], r.data.companyTypes) && JoinedCell(cells[3], r.data.collectorTypes)
      && JoinedCell(cells[4], r.data.wasteProcessorTypes) && JoinedCell(cells[5], r.data.wasteVehiclesTypes)
      && cells[6] == Marker(r.errors == [])
  {
    var lists := [r.data.companyTypes, r.data.collectorTypes, r.data.wasteProcessorTypes, r.data.wasteVehiclesTypes];
    assert AllPresent(lists) <==> lists[0].Some? && lists[1].Some? && lists[2].Some? && lists[3].Some?;
    NumberCellOf(r.data.index);
  }

  /** The role row's `as_list` has no list cell, so it raises only before
      validation; otherwise its five cells are the row number, siret, email,
      role and the marker. */
  lemma RoleAsListSpec(r: RoleRow)
    ensures r.AsList().Raised? <==> !r.validated
    ensures r.AsList().Raised? ==> r.AsList().exc == NotValidated
    ensures r.AsList().Ok? ==>
      var cells := r.AsList().value;
      && |cells| == 5
      && NumberCell(cells[0], r.data.index)
      && cells[1] == Plain(r.data.siret) && cells[2] == Plain(r.data.email) && cells[3] == Plain(r.data.role)
      && cells[4] == Marker(r.errors == [])
  {
    NumberCellOf(r.data.index);
  }

  // ---------------------------------------------------------------------
  // The repository's own test rows

  /** A list cell as the worksheet reader fills it: absent or a list. */
  function ListValueOf(o: Option<seq<string>>): Value
  {
    if o.None? then Null else Items(o.value)
  }

  /** The raw row of the create-validation tests: a 14-character siret, a
      name, no gerepId, and the four category cells. */
  function TestRaw(companyTypes: seq<string>, collectorTypes: Option<seq<string>>,
                   wasteProcessorTypes: Option<seq<string>>, wasteVehiclesTypes: Option<seq<string>>): Raw
  {
    map[SiretCol := Text("1OO00000000048"), GerepIdCol := Null, CompanyTypesCol := Items(companyTypes),
        CollectorTypesCol := ListValueOf(collectorTypes), WasteProcessorTypesCol := ListValueOf(wasteProcessorTypes),
        WasteVehiclesTypesCol := ListValueOf(wasteVehiclesTypes), GivenNameCol := Text("Name")]
  }

  /** The row `from_dict` builds from a test raw row: absent cells take their
      defaults, `None` cells stay absent. */
  function TestFields(companyTypes: seq<string>, collectorTypes: Option<seq<string>>,
                      wasteProcessorTypes: Option<seq<string>>, wasteVehiclesTypes: Option<seq<string>>): CreateFields
  {
    CreateFields(1, Some("1OO00000000048"), None, Some(companyTypes), collectorTypes, wasteProcessorTypes,
                 wasteVehiclesTypes, Some("Name"), Some(""), Some(""), Some(""), Some(""))
  }

  /** `from_dict` on a test raw row builds that row, numbered 1. */
  lemma TestRowBuilt(companyTypes: seq<string>, collectorTypes: Option<seq<string>>,
                     wasteProcessorTypes: Option<seq<string>>, wasteVehiclesTypes: Option<seq<string>>)
    ensures var raw := TestRaw(companyTypes, collectorTypes, wasteProcessorTypes, wasteVehiclesTypes);
            WellKinded(raw, CreateScalarKeys, ListKeys) &&
            CreateFromDict(1, raw) == Ok(Some(TestFields(companyTypes, collectorTypes, wasteProcessorTypes, wasteVehiclesTypes)))
  {
    var raw := TestRaw(companyTypes, collectorTypes, wasteProcessorTypes, wasteVehiclesTypes);
    TestRawShape(companyTypes, collectorTypes, wasteProcessorTypes, wasteVehiclesTypes);
    assert Truthy(raw[SiretCol]);
  }

  lemma TestRawShape(companyTypes: seq<string>, collectorTypes: Option<seq<string>>,
                     wasteProcessorTypes: Option<seq<string>>, wasteVehiclesTypes: Option<seq<string>>)
    ensures var raw := TestRaw(companyTypes, collectorTypes, wasteProcessorTypes, wasteVehiclesTypes);
            WellKinded(raw, CreateScalarKeys, ListKeys) && raw.Keys <= CreateScalarKeys + ListKeys
  {
    var raw := TestRaw(companyTypes, collectorTypes, wasteProcessorTypes, wasteVehiclesTypes);
    TestRawKeys(companyTypes, collectorTypes, wasteProcessorTypes, wasteVehiclesTypes);
    TestRawCells(companyTypes, collectorTypes, wasteProcessorTypes, wasteVehiclesTypes);
    CreateKeysNamed();
    WellKindedFromParts(raw, CreateScalarKeys, ListKeys);
  }

  /** The create-row keywords are named attributes, none of them bookkeeping. */
  lemma CreateKeysNamed()
    ensures forall k :: k in CreateScalarKeys + ListKeys ==> !k.OtherCol? && k != ErrorsCol && k != ValidatedCol
  {
  }

  lemma TestRawCells(companyTypes: seq<string>, collectorTypes: Option<seq<string>>,
                     wasteProcessorTypes: Option<seq<string>>, wasteVehiclesTypes: Option<seq<string>>)
    ensures var raw := TestRaw(companyTypes, collectorTypes, wasteProcessorTypes, wasteVehiclesTypes);
            && (forall k :: k in raw && k in CreateScalarKeys ==> !raw[k].Items?)
            && (forall k :: k in raw && k in ListKeys ==> !raw[k].Text?)
  {
    TestRawKeys(companyTypes, collectorTypes, wasteProcessorTypes, wasteVehiclesTypes);
  }

  /** A raw row keyed by named row attributes only, with text or nothing in
      the scalar ones and lists or nothing in the list ones, is well kinded. */
  lemma WellKindedFromParts(raw: Raw, scalarKeys: set<Column>, listKeys: set<Column>)
    requires raw.Keys <= scalarKeys + listKeys
    requires forall k :: k in scalarKeys + listKeys ==> !k.OtherCol? && k != ErrorsCol && k != ValidatedCol
    requires forall k :: k in raw && k in scalarKeys ==> !raw[k].Items?
    requires forall k :: k in raw && k in listKeys ==> !raw[k].Text?
    ensures WellKinded(raw, scalarKeys, listKeys)
  {
  }

  lemma TestRawKeys(companyTypes: seq<string>, collectorTypes: Option<seq<string>>,
                    wasteProcessorTypes: Option<seq<string>>, wasteVehiclesTypes: Option<seq<string>>)
    ensures TestRaw(companyTypes, collectorTypes, wasteProcessorTypes, wasteVehiclesTypes).Keys ==
            {SiretCol, GerepIdCol, CompanyTypesCol, CollectorTypesCol, WasteProcessorTypesCol,
             WasteVehiclesTypesCol, GivenNameCol}
  {
  }

  /** The create-validation test cases that pass: a producer with no
      subtypes, and each subtype family next to its parent category. */
  lemma CreateTestRowsValid(emailOk: string -> bool)
    ensures Run(CreateTests(TestFields(["PRODUCER"], None, None, None), emailOk)) == Pass([], None)
    ensures Run(CreateTests(TestFields(["PRODUCER", "WASTEPROCESSOR"], None, Some(["OTHER_DANGEROUS_WASTES"]), None),
                            emailOk)) == Pass([], None)
    ensures Run(CreateTests(TestFields(["PRODUCER", "COLLECTOR"], Some(["DEEE_WASTES"]), None, None), emailOk))
            == Pass([], None)
    ensures Run(CreateTests(TestFields(["PRODUCER", "WASTE_VEHICLES"], None, None, Some(["BROYEUR"])), emailOk))
            == Pass([], None)
  {
    TestRowClean(["PRODUCER"], None, None, None, emailOk);
    TestRowClean(["PRODUCER", "WASTEPROCESSOR"], None, Some(["OTHER_DANGEROUS_WASTES"]), None, emailOk);
    TestRowClean(["PRODUCER", "COLLECTOR"], Some(["DEEE_WASTES"]), None, None, emailOk);
    TestRowClean(["PRODUCER", "WASTE_VEHICLES"], None, None, Some(["BROYEUR"]), emailOk);
  }

  /** A test row is clean exactly when its category rules hold: its siret
      has 14 characters and its contact cells are empty. */
  lemma TestRowClean(companyTypes: seq<string>, collectorTypes: Option<seq<string>>,
                     wasteProcessorTypes: Option<seq<string>>, wasteVehiclesTypes: Option<seq<string>>,
                     emailOk: string -> bool)
    ensures var d := TestFields(companyTypes, collectorTypes, wasteProcessorTypes, wasteVehiclesTypes);
            Run(CreateTests(d, emailOk)) == Pass([], None) <==>
              && CompanyTypesAreValid(d.companyTypes)
              && SubtypesAreValid(d.collectorTypes, d.companyTypes, Taxonomy.CollectorParent, Taxonomy.CollectorTypes) == Ok(true)
              && SubtypesAreValid(d.wasteProcessorTypes, d.companyTypes, Taxonomy.WasteProcessorParent,
                                  Taxonomy.WasteProcessorTypes) == Ok(true)
              && SubtypesAreValid(d.wasteVehiclesTypes, d.companyTypes, Taxonomy.WasteVehiclesParent,
                                  Taxonomy.WasteVehicleTypes) == Ok(true)
  {
    var d := TestFields(companyTypes, collectorTypes, wasteProcessorTypes, wasteVehiclesTypes);
    CreateValidationSpec(d, emailOk);
    UpdateValidationSpec(Establishment(d));
  }

  /** The create-validation test cases that fail: a subtype list without its
      parent category, whether or not its values are known. */
  lemma CreateTestRowsInvalid(emailOk: string -> bool)
    ensures var p := Run(CreateTests(TestFields(["PRODUCER"], None, Some(["PLOP"]), None), emailOk)); p.raised == None && p.errors != []
    ensures var p := Run(CreateTests(TestFields(["PRODUCER"], None, Some(["OTHER_DANGEROUS_WASTES"]), None), emailOk)); p.raised == None && p.errors != []
    ensures var p := Run(CreateTests(TestFields(["PRODUCER"], Some(["PLOP"]), None, None), emailOk)); p.raised == None && p.errors != []
    ensures var p := Run(CreateTests(TestFields(["PRODUCER"], Some(["DEEE_WASTES"]), None, None), emailOk)); p.raised == None && p.errors != []
    ensures var p := Run(CreateTests(TestFields(["PRODUCER"], None, None, Some(["PLOP"])), emailOk)); p.raised == None && p.errors != []
    ensures var p := Run(CreateTests(TestFields(["PRODUCER"], None, None, Some(["BROYEUR"])), emailOk)); p.raised == None && p.errors != []
  {
    CreateValidationSpec(TestFields(["PRODUCER"], None, Some(["PLOP"]), None), emailOk);
    CreateValidationSpec(TestFields(["PRODUCER"], None, Some(["OTHER_DANGEROUS_WASTES"]), None), emailOk);
    CreateValidationSpec(TestFields(["PRODUCER"], Some(["PLOP"]), None, None), emailOk);
    CreateValidationSpec(TestFields(["PRODUCER"], Some(["DEEE_WASTES"]), None, None), emailOk);
    CreateValidationSpec(TestFields(["PRODUCER"], None, None, Some(["PLOP"])), emailOk);
    CreateValidationSpec(TestFields(["PRODUCER"], None, None, Some(["BROYEUR"])), emailOk);
  }
}
