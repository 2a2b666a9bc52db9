/**
 * The field-name registry of src/sim_csv_script/app.py: pySim's ISIM, USIM and
 * base `EF` maps from field name to file identifier, merged into one.
 */
module Registry {

  type FieldName = string
  type FileId = string

  /** Field names whose files are record structured; every other field is transparent. */
  const RECORD_FIELDS: set<FieldName> := {"SMSP", "PCSCF", "IMPU"}

  /** The three maps pySim provides; the engine only ever reads them. */
  datatype Registry = Registry(
    isim: map<FieldName, FileId>,
    usim: map<FieldName, FileId>,
    base: map<FieldName, FileId>)
  {
    /**
     * `ALL_FieldName_to_EF = {**EF_ISIM_ADF_map, **EF_USIM_ADF_map, **EF}`: every
     * name of the three maps, with `EF` winning over USIM and USIM over ISIM.
     */
    function All(): (m: map<FieldName, FileId>)
      ensures m.Keys == isim.Keys + usim.Keys + base.Keys
      ensures forall n :: n in base ==> m[n] == base[n]
      ensures forall n :: n in usim && n !in base ==> m[n] == usim[n]
      ensures forall n :: n in isim && n !in usim && n !in base ==> m[n] == isim[n]
    {
      isim + usim + base
    }
  }
}
