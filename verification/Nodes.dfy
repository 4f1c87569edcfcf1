module Nodes {
  /** Node names are compared with memcmp in the source; their order is the order of `nat`. */
  type NodeId = nat
}
