/** Types shared by the HTTP crate root (src/http/lib.rs). */
module Http {
  /** The protocol versions the parsers can produce. The crate root declares
      only `Version11`; the version recogniser also yields `Version10`, so both
      are variants here. */
  datatype HttpVersion = Version10 | Version11

  /** Response status. Only `Ok` is used by the modelled code; the crate's
      `statuscodes` module, which holds the rest of the variants, is not part of
      this model, and `Other` stands for any of them without naming a code
      registry. */
  datatype StatusCode = Ok | Other
}
