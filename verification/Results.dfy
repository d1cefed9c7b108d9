/** Optional values and errors: those of the `CgkaError` enumeration that the model raises,
    and four that stand for a call that stops the program instead of returning. */
module Results {

  datatype Option<+T> = None | Some(value: T)

  /** `AssertionFailed` is a failed debug assertion, `ConflictingLeaf` the panic on a leaf
      with several keys in a resolution, `IndexOutOfBounds` the panic on an inner node
      outside the tree, and `ShiftOverflow` the walk to the root from a leaf outside the
      tree, which overflows a shift or, unchecked, goes on for ever. */
  datatype CgkaError =
    | AssertionFailed
    | ConflictingLeaf
    | Decryption
    | EncryptedSecretNotFound
    | IdentifierNotFound
    | IndexOutOfBounds
    | NoRootKey
    | OutOfOrderOperation
    | RemoveLastMember
    | SecretKeyNotFound
    | ShiftOverflow
    | ShareKeyNotFound
    | UnexpectedKeyConflict
    | UnknownPcsKey

  datatype Result<+T> = Ok(value: T) | Err(error: CgkaError)
}
