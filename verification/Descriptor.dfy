/** What a sub-queue publishes for one of its ends. */
module Descriptor {
  datatype Desc = Desc(node: nat, count: nat)
}
