module Roles {
  /** The role of an agent in its team. */
  datatype Role = Lead | Teammate
}
