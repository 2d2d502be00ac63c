/** The errors an extraction can end with, one constructor per way the engine or the calls it makes can fail. */
module Errors {
  import opened Paths

  datatype Error =
    /** `New`: `os.Stat` reports that the source path does not exist. */
    | PathDoesNotExist(path: Path)
    /** `filepath.Walk` handed an I/O error to the categorising callback. */
    | WalkError(path: Path, reason: string)
    /** A path component that has to be a directory is a file. */
    | NotADirectory(path: Path)
    /** The parent directory does not allow new entries. */
    | PermissionDenied(path: Path)
    /** The parent of a file to create is missing. */
    | NoSuchDirectory(path: Path)
    /** `os.Create` on a path that is a directory. */
    | IsADirectory(path: Path)
    /** `os.Open` or `template.ParseFiles` on a source file that is not there. */
    | NoSuchFile(path: Path)
    /** Reading a source file failed part way. */
    | ReadError(path: Path, reason: string)
    /** Closing a copied destination file reported an error. */
    | CloseError(path: Path)
    /** `template.ParseFiles` rejected the template body. */
    | TemplateParseError(path: Path, reason: string)
    /** `Template.Execute` failed while writing the output. */
    | TemplateExecError(path: Path, reason: string)
}
