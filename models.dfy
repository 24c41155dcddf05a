/** The saved host record, as far as the modelled code reads it. */
module Models {
  import opened Wrappers

  /** A Rust `u16`. */
  type U16 = n: nat | n <= 0xFFFF

  /** The port a host record gets when none is given. */
  const DefaultPort: U16 := 22

  /**
   * A saved host: its stable id, the alias shown to the user, the endpoint
   * (hostname, user, port), the optional key file and jump host, and the
   * soft-delete flag. The other fields of the record (name, tags, notes, ...)
   * are not read by the modelled code.
   */
  datatype Host = Host(
    id: string,
    alias: string,
    hostname: string,
    user: string,
    port: U16,
    identityFile: Option<string>,
    proxyJump: Option<string>,
    deleted: bool
  )
}
