/**
 * The result shape every server action returns
 * (lib/common/types/request-response.ts, type ServerResponse).
 */
module Response {

  /**
   * `{ success: true, data }` or `{ success: false, message }`.
   * A `void` action answers `Success(())`, i.e. `data: undefined`.
   */
  datatype ServerResponse<T> = Success(data: T) | Failure(message: string)

  /** The generic denial message: it never says which check failed. */
  const Unauthorized: string := "Unauthorized"

  /** Message of the error the store raises on a primary-key or unique-index violation. */
  const DuplicateKey: string := "duplicate key value violates unique constraint"

  /** Message of the error the store raises when a referenced row does not exist. */
  const ForeignKeyViolation: string := "insert or update violates foreign key constraint"
}
