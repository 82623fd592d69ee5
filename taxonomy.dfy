/** The business taxonomy: the top-level company categories, the three subtype
    families each gated by one parent category, and the user roles. Only the
    members that the repository's tests exhibit are listed (the constant
    definitions themselves are not part of this model); the order is the one
    the error messages join them in. */
module Taxonomy {

  const CompanyTypes: seq<string> :=
    ["PRODUCER", "COLLECTOR", "WASTEPROCESSOR", "TRANSPORTER", "WASTE_VEHICLES",
     "WASTE_CENTER", "DISPOSAL_FACILITY"]

  const CollectorTypes: seq<string> :=
    ["NON_DANGEROUS_WASTES", "DANGEROUS_WASTES", "DEEE_WASTES", "OTHER_NON_DANGEROUS_WASTES"]

  const WasteProcessorTypes: seq<string> :=
    ["DANGEROUS_WASTES_STORAGE", "OTHER_DANGEROUS_WASTES", "CREMATION"]

  const WasteVehicleTypes: seq<string> := ["BROYEUR", "DEMOLISSEUR"]

  const UserRoles: seq<string> := ["MEMBER", "ADMIN"]

  /** The parent category each subtype family requires in `companyTypes`. */
  const CollectorParent := "COLLECTOR"
  const WasteProcessorParent := "WASTEPROCESSOR"
  const WasteVehiclesParent := "WASTE_VEHICLES"

  /** Every parent category is itself a company type. */
  lemma ParentsAreCompanyTypes()
    ensures CollectorParent in CompanyTypes
    ensures WasteProcessorParent in CompanyTypes
    ensures WasteVehiclesParent in CompanyTypes
  {
  }

  /** No taxonomy member contains a comma, so the comma-joined lists of the
      exports and messages can be split back into their members. */
  lemma NoCommas()
    ensures forall i :: 0 <= i < |CompanyTypes| ==> ',' !in CompanyTypes[i]
    ensures forall i :: 0 <= i < |CollectorTypes| ==> ',' !in CollectorTypes[i]
    ensures forall i :: 0 <= i < |WasteProcessorTypes| ==> ',' !in WasteProcessorTypes[i]
    ensures forall i :: 0 <= i < |WasteVehicleTypes| ==> ',' !in WasteVehicleTypes[i]
  {
  }
}
