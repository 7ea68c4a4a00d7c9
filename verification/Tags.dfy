/** The tags of types and of ASTs, as numbered by their descriptor tables. */
module Tags {
  const CON_VEC: nat := 0
  const INTEGER: nat := 1
  const DYNAMIC: nat := 2
  const AST_POINTER: nat := 3
  const TYPE_POINTER: nat := 4
  const FUNCTION_POINTER: nat := 5
  const VECTOR: nat := 6
  const FULL_POINTER: nat := 7
  const TEMP_POINTER: nat := 8
  const POINTER_TO_SOMETHING: nat := 9
  const VECTOR_OF_SOMETHING: nat := 10
  const DOES_NOT_RETURN: nat := 11
  const NEVER_REACHED: nat := 12

  const IMV: nat := 0
  const BASIC_BLOCK: nat := 1

  /** Types with these tags have type pointers as fields, and so have an object in memory. */
  predicate HasFields(tag: nat) {
    tag == CON_VEC || VECTOR <= tag <= TEMP_POINTER
  }
}
