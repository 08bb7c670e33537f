/** Identifiers, and the roles that mint them. */
module Ids {

  datatype Role = Rm | Cem

  /** An S2 `ID`: the nil identifier, one an engine minted, or one an application chose. */
  datatype Id = Nil | Minted(role: Role, n: nat) | Named(name: string)

  /** Stands for the parts of a message that nothing here reads. */
  type Body = int
}
