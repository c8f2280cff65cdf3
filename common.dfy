// Shared value types: optional values, results, and the exceptions the
// modelled Java code throws or catches.

module Common {

  /** A Java reference that may be null. */
  datatype Option<+T> = None | Some(value: T)

  /** A value or the exception thrown instead of returning it. */
  datatype Result<+T, +E> = Ok(value: T) | Err(error: E)

  /** Normal completion of a void method, or the exception it threw. */
  datatype Outcome<+E> = Pass | Fail(error: E)

  /** A filesystem location as the sequence of its names below the root. */
  type Path = seq<string>

  /**
   * The Java exceptions that cross the boundaries of the modelled code.
   * File-system exceptions carry the path they are about; the others
   * carry their message.
   */
  datatype Exception =
    | NoSuchFile(path: Path)                          // java.nio.file.NoSuchFileException
    | DirectoryNotEmpty(path: Path)                   // java.nio.file.DirectoryNotEmptyException
    | NotDirectory(path: Path)                        // java.nio.file.NotDirectoryException
    | AccessDenied(path: Path)                        // any other IOException the OS reports for path
    | NoAttributeView(path: Path)                     // "No DosFileAttributeView or PosixFileAttributeView for ..."
    | ListingFailed(path: Path)                       // "Unknown I/O error listing contents of directory: ..."
    | Aggregate(path: Path, suppressed: seq<Exception>) // new IOException(path) with addSuppressed causes
    | CannotDelete(path: Path, cause: Exception)      // "Cannot delete file: " + file, with its cause
    | IOFailure(message: string)                      // an IOException raised by a foreign call
    | IllegalArgument(message: string)
    | IllegalState(message: string)
    | NullPointer
    | IndexOutOfBounds(index: int)                    // StringIndexOutOfBoundsException from substring
    | ManagedProcessFailure(message: string, reason: Option<Exception>) // ch.vorburger.exec.ManagedProcessException

  /** The checked java.io.IOException family, as opposed to unchecked exceptions. */
  predicate IsIOException(e: Exception) {
    e.NoSuchFile? || e.DirectoryNotEmpty? || e.NotDirectory? || e.AccessDenied? || e.NoAttributeView? ||
    e.ListingFailed? || e.Aggregate? || e.CannotDelete? || e.IOFailure?
  }
}
