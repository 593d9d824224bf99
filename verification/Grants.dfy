/** Grants (internal/privileges/grant.go). */
module Grants {

  /** kind is the privilege; "" stands for any. partial: some but not all objects of a schema. */
  datatype Grant = Grant(
    owner: string,
    grantee: string,
    acl: string,
    kind: string,
    database: string,
    schema: string,
    target: string,
    partial: bool)
  {
    function Complete(): Grant {
      this.(partial := false)
    }

    /** The row that tells a schema has no object to grant this on. */
    function Irrelevant(): Grant {
      this.(grantee := "public", kind := "")
    }
  }
}
