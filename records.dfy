/**
 * The rows the views read. Chants and sequences share their columns (both
 * derive from one abstract chant model); `kind` records which table a row came
 * from once the two are concatenated. Foreign keys are kept as ids, and the few
 * related columns the views filter or order on (the feast's name, the
 * holding institution's siglum, the source's `published` flag) are copied in.
 */
module Records {
  import opened Wrappers

  datatype Kind = ChantRow | SequenceRow

  datatype Chant = Chant(
    id: int,
    kind: Kind,
    sourceId: Option<int>,
    /** The row has a source and that source is published. */
    published: bool,
    /** `source__holding_institution__siglum` */
    institutionSiglum: Option<string>,
    /** The row's own `siglum` column. */
    siglum: Option<string>,
    serviceId: Option<int>,
    genreId: Option<int>,
    feastId: Option<int>,
    /** `feast__name`; `None` when there is no feast or the feast has no name. */
    feastName: Option<string>,
    cantusId: Option<string>,
    mode: Option<string>,
    position: Option<string>,
    folio: Option<string>,
    cSequence: Option<int>,
    incipit: Option<string>,
    /** `manuscript_full_text` */
    fullText: Option<string>,
    /** `manuscript_full_text_std_spelling` */
    stdText: Option<string>,
    volpiano: Option<string>,
    imageLink: Option<string>,
    indexingNotes: Option<string>,
    isLastInFeast: bool,
    /** `next_chant`, by id. */
    nextChantId: Option<int>,
    createdBy: Option<int>,
    lastUpdatedBy: Option<int>
  )

  /** Python truthiness of an optional text value: present and not empty. */
  predicate Truthy(s: Option<string>) {
    s.Some? && s.value != ""
  }
}
