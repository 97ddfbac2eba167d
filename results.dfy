/** Optional values and the error outcomes that the store's operations throw. */
module Results {

  datatype Option<+T> = None | Some(value: T)

  /** The file-system call that raised a raw ENOENT error. */
  datatype Syscall = Stat | Scandir | Open | Unlink

  /**
   * What an operation throws. The named errors abstract the messages the
   * store builds; `NoSuchFile` is a raw ENOENT error rethrown unchanged.
   */
  datatype Error =
    | DatabaseNotFound(db: string)
    | CollectionNotFound(col: string)
    | DocumentNotFound(name: string)
    | NoDocuments(col: string)
    | NoIndexReference(property: string)
    | UnsupportedOperator(operator: string)
    | InvalidLimit
    | Unnamed                          // `throw new Error('')`
    | NoSuchFile(syscall: Syscall, path: string)
    | EmptyJson                        // JSON.parse of an empty file

  datatype Result<+T> = Ok(value: T) | Err(error: Error)
}
