/** Limits that several parts of the program share. */
module Limits {
  const MAX_HOST_NUM: nat := 20
}
