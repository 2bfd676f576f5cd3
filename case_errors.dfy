/** The CaseActionException messages of the case module, and what caused each. */
module CaseErrors {

  /** The failure inside createCaseDirectory's guarded block, which it wraps in its generic message. */
  datatype DirFailure =
    | RootNotCreated
    | SubfoldersNotCreated
    | ModulesOutputNotCreated(dir: string)

  /** What went wrong inside open's try block. */
  datatype OpenFailure =
    | ConfigUnreadable
    | BlankCase
    | DatabaseUnopenable
    /** The null listing of an unreadable temp folder, dereferenced while the case becomes current. */
    | TempUnlisted

  /** The first close call that threw in closeCase. */
  datatype CloseFault =
    | ServicesFault
    | ConfigFault
    | DatabaseFault

  /** What went wrong inside deleteCase's try block. */
  datatype DeleteFailure =
    | ConfigNotClosed
    | DirectoryNotRemoved

  /**
   * The errors the case module raises. All are CaseActionExceptions except
   * TempFolderUnlisted, the unchecked exception thrown when the temp folder of
   * the case being made current cannot be listed.
   */
  datatype CaseError =
    | ExistsNotDir(dir: string)
    | CannotReadWrite(dir: string)
    | DirectoryFailed(dir: string, cause: DirFailure)
    | ConfigNotCreated
    | DatabaseNotCreated(caseName: string, caseDir: string)
    | OpenCheckFile(openCause: OpenFailure)
    | OpenFailed(openCause: OpenFailure)
    | CloseFailed(fault: CloseFault)
    | DeleteFailed(deleteDir: string, deleteCause: DeleteFailure)
    | UpdateNameFailed
    | UpdateNumberFailed
    | UpdateExaminerFailed
    | AddImageFailed
    | NoCaseOpen
    | TempFolderUnlisted(tempDir: string)
}
