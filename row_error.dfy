/** The structured error record of a row and its human-readable rendering:
    a closed dispatch on the error type, then on the field name. */
module RowErrors {
  import opened Values
  import Taxonomy

  /** The worksheet tab an error points at. */
  datatype Tab = Etablissements | Roles

  function TabName(t: Tab): string
  {
    match t
    case Etablissements => "Établissements"
    case Roles => "Rôles"
  }

  datatype ErrorType = Field | SiretMissingFromEtab | SiretHasNoAdmin | DuplicateRole

  /** The attribute an error is recorded on: the row models only ever record
      errors on these nine attributes. */
  datatype FieldName =
    | Siret | CompanyTypes | CollectorTypes | WasteProcessorTypes | WasteVehiclesTypes
    | ContactPhone | ContactEmail | Role | Email

  /** The attribute's name as the error record spells it. */
  function Name(f: FieldName): string
  {
    match f
    case Siret => "siret"
    case CompanyTypes => "companyTypes"
    case CollectorTypes => "collectorTypes"
    case WasteProcessorTypes => "wasteProcessorTypes"
    case WasteVehiclesTypes => "wasteVehiclesTypes"
    case ContactPhone => "contactPhone"
    case ContactEmail => "contactEmail"
    case Role => "role"
    case Email => "email"
  }

  /** The offending value: a scalar cell or a list cell. */
  datatype FieldValue = TextValue(text: Option<string>) | ListValue(items: Option<seq<string>>)

  datatype RowError = RowError(rowNumber: int, fieldName: FieldName, fieldValue: FieldValue,
                               errorType: ErrorType, tab: Tab)

  /** The value shown to the user: a `companyTypes` list is shown comma-joined,
      everything else as it is. */
  function DisplayableValue(e: RowError): FieldValue
  {
    if e.fieldName == CompanyTypes && e.fieldValue.ListValue? && e.fieldValue.items.Some?
    then TextValue(Some(Join(',', e.fieldValue.items.value)))
    else e.fieldValue
  }

  /** The displayed `companyTypes` text splits back into the offending list
      when that list is non-empty and free of commas; other values are shown
      unchanged. */
  lemma DisplayableValueRoundTrip(e: RowError)
    ensures e.fieldName != CompanyTypes ==> DisplayableValue(e) == e.fieldValue
    ensures e.fieldValue.TextValue? ==> DisplayableValue(e) == e.fieldValue
    ensures e.fieldName == CompanyTypes && e.fieldValue.ListValue? && e.fieldValue.items.Some? &&
            e.fieldValue.items.value != [] &&
            (forall i :: 0 <= i < |e.fieldValue.items.value| ==> ',' !in e.fieldValue.items.value[i])
            ==> DisplayableValue(e).TextValue? && DisplayableValue(e).text.Some? &&
                Split(',', DisplayableValue(e).text.value) == e.fieldValue.items.value
  {
    if e.fieldName == CompanyTypes && e.fieldValue.ListValue? && e.fieldValue.items.Some? &&
       e.fieldValue.items.value != [] &&
       (forall i :: 0 <= i < |e.fieldValue.items.value| ==> ',' !in e.fieldValue.items.value[i]) {
      SplitJoin(',', e.fieldValue.items.value);
    }
  }

  const SiretMessage := "Format de siret incorrect, un siret est composé de 14 chiffres"
  const CompanyTypesMessage :=
    "Le champ companyTypes accepte uniquement les valeurs " + Join(',', Taxonomy.CompanyTypes) +
    " séparées par des virgules"
  const CollectorTypesMessage :=
    "Le champ collectorTypes accepte uniquement les valeurs " + Join(',', Taxonomy.CollectorTypes) +
    " séparées par des virgules. Le champ companyTypes doit contenir COLLECTOR."
  /** As the source has it: this message names collectorTypes and WASTE_PROCESSOR. */
  const WasteProcessorTypesMessage :=
    "Le champ collectorTypes accepte uniquement les valeurs " + Join(',', Taxonomy.WasteProcessorTypes) +
    " séparées par des virgules.Le champ companyTypes doit contenir WASTE_PROCESSOR."
  const WasteVehiclesTypesMessage :=
    "Le champ wasteVehiclesTypes accepte uniquement les valeurs " + Join(',', Taxonomy.WasteVehicleTypes) +
    " séparées par des virgules. Le champ companyTypes doit contenir WASTE_VEHICLES."
  const RoleMessage := "Le champ role accepte uniquement les valeurs " + Join(',', Taxonomy.UserRoles)
  const EmailMessage := "Valeur incorrecte, les adresses emails doivent être correctement formées"
  const MissingSiretMessage := "Siret absent de l'onglet établissements"
  const NoAdminMessage := "Le siret n'a pas d'ADMIN identifié dans l'onglet rôles"
  const DuplicateRoleMessage :=
    "Le rôle est dupliqué, un email ne peut être associé à un siret qu'un seule fois"

  /** The field names that have a message of their own. */
  const FieldsWithMessage: set<FieldName> :=
    {Siret, CompanyTypes, CollectorTypes, WasteProcessorTypes, WasteVehiclesTypes, Role, Email, ContactEmail}

  /** The message of a `field` error, looked up by field name; None for a field
      without an entry. */
  function VerboseErrorField(fieldName: FieldName): Option<string>
  {
    match fieldName
    case Siret => Some(SiretMessage)
    case CompanyTypes => Some(CompanyTypesMessage)
    case CollectorTypes => Some(CollectorTypesMessage)
    case WasteProcessorTypes => Some(WasteProcessorTypesMessage)
    case WasteVehiclesTypes => Some(WasteVehiclesTypesMessage)
    case Role => Some(RoleMessage)
    case Email => Some(EmailMessage)
    case ContactEmail => Some(EmailMessage)
    case ContactPhone => None
  }

  /** `RowError.verbose`: the referential error types have fixed messages, a
      field error is rendered by its field name. */
  function Verbose(e: RowError): Option<string>
  {
    match e.errorType
    case SiretMissingFromEtab => Some(MissingSiretMessage)
    case SiretHasNoAdmin => Some(NoAdminMessage)
    case DuplicateRole => Some(DuplicateRoleMessage)
    case Field => VerboseErrorField(e.fieldName)
  }

  /** Rendering depends only on the error type and the field name: a
      referential error has a message whatever its field, and a field error
      has one exactly when its field has an entry, so never for
      `contactPhone`. */
  lemma VerboseTotality(e: RowError)
    ensures e.errorType != Field ==> Verbose(e).Some?
    ensures e.errorType == Field ==> (Verbose(e).Some? <==> e.fieldName in FieldsWithMessage)
    ensures e.errorType == Field && e.fieldName == ContactPhone ==> Verbose(e) == None
    ensures forall e': RowError :: e'.errorType == e.errorType && e'.fieldName == e.fieldName
                                   ==> Verbose(e') == Verbose(e)
  {
  }
}
