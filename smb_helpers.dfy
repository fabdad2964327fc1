/**
 * SmbHelpers: status validation and the tables that translate System.IO's
 * file-open vocabulary into SMB2's (section 2.2.13 of MS-SMB2).
 *
 * Every [Flags] enum is a set of distinct symbolic bits; bits the source
 * never names are `Other…(bit)` so that "sets nothing else" can be stated.
 * An exception becomes a Failure.
 */
module SmbHelpers {
  import opened Wrappers
  import opened Text
  import opened NtStatus

  // ---------------------------------------------------------------------
  // ValidateStatus and NotFound
  // ---------------------------------------------------------------------

  /** The exception ValidateStatus throws, one kind per message it formats. */
  datatype ValidationError =
    | InsufficientPermissions(fileName: Option<WString>)   // STATUS_ACCESS_DENIED
    | ShouldNotBeDirectory(fileName: Option<WString>)      // STATUS_FILE_IS_A_DIRECTORY
    | PathNotFound(fileName: Option<WString>)              // STATUS_OBJECT_PATH_NOT_FOUND
    | FileNotFound(fileName: Option<WString>)              // STATUS_OBJECT_NAME_NOT_FOUND
    | AlreadyExists(fileName: Option<WString>)             // STATUS_OBJECT_NAME_COLLISION
    | ValidationFailure(failureMessage: string, status: NTStatus, allowed: seq<NTStatus>)

  /** The five statuses that get a message of their own. */
  predicate HasDedicatedMessage(status: NTStatus) {
    status in {STATUS_ACCESS_DENIED, STATUS_FILE_IS_A_DIRECTORY, STATUS_OBJECT_PATH_NOT_FOUND,
               STATUS_OBJECT_NAME_NOT_FOUND, STATUS_OBJECT_NAME_COLLISION}
  }

  /** ValidateStatus(status, failureMessage, fileName, allowedStatuses). */
  function ValidateStatusFor(status: NTStatus, failureMessage: string, fileName: Option<WString>,
                             allowed: seq<NTStatus>): (r: Result<(), ValidationError>)
    ensures r.Success? <==> status in allowed
    ensures r.Failure? && HasDedicatedMessage(status) ==> !r.error.ValidationFailure? && r.error.fileName == fileName
    ensures r.Failure? && !HasDedicatedMessage(status) ==>
      r.error == ValidationFailure(failureMessage, status, allowed)
  {
    if status in allowed then Success(())
    else if status == STATUS_ACCESS_DENIED then Failure(InsufficientPermissions(fileName))
    else if status == STATUS_FILE_IS_A_DIRECTORY then Failure(ShouldNotBeDirectory(fileName))
    else if status == STATUS_OBJECT_PATH_NOT_FOUND then Failure(PathNotFound(fileName))
    else if status == STATUS_OBJECT_NAME_NOT_FOUND then Failure(FileNotFound(fileName))
    else if status == STATUS_OBJECT_NAME_COLLISION then Failure(AlreadyExists(fileName))
    else Failure(ValidationFailure(failureMessage, status, allowed))
  }

  /** The overload without a file name passes null. */
  function ValidateStatus(status: NTStatus, failureMessage: string, allowed: seq<NTStatus>): (r: Result<(), ValidationError>)
    ensures r.Success? <==> status in allowed
    ensures r.Failure? && HasDedicatedMessage(status) ==> !r.error.ValidationFailure? && r.error.fileName == None
  {
    ValidateStatusFor(status, failureMessage, None, allowed)
  }

  /** Which status names which message: the dedicated kinds partition the five statuses. */
  lemma DedicatedMessages(status: NTStatus, failureMessage: string, fileName: Option<WString>, allowed: seq<NTStatus>)
    requires status !in allowed
    ensures var e := ValidateStatusFor(status, failureMessage, fileName, allowed).error;
      && (e.InsufficientPermissions? <==> status == STATUS_ACCESS_DENIED)
      && (e.ShouldNotBeDirectory? <==> status == STATUS_FILE_IS_A_DIRECTORY)
      && (e.PathNotFound? <==> status == STATUS_OBJECT_PATH_NOT_FOUND)
      && (e.FileNotFound? <==> status == STATUS_OBJECT_NAME_NOT_FOUND)
      && (e.AlreadyExists? <==> status == STATUS_OBJECT_NAME_COLLISION)
      && (e.ValidationFailure? <==> !HasDedicatedMessage(status))
  {
  }

  /** SMBLibrary's FileStatus: what a create did to the file. */
  datatype FileStatus =
    | FILE_SUPERSEDED | FILE_OPENED | FILE_CREATED | FILE_OVERWRITTEN | FILE_EXISTS | FILE_DOES_NOT_EXIST

  /** NotFound: one of the three not-found statuses, or a create that reports the file missing. */
  predicate NotFound(status: NTStatus, fileStatus: Option<FileStatus>) {
    || status == STATUS_NOT_FOUND
    || status == STATUS_OBJECT_NAME_NOT_FOUND
    || status == STATUS_OBJECT_PATH_NOT_FOUND
    || fileStatus == Some(FILE_DOES_NOT_EXIST)
  }

  /**
   * A not-found status that the caller did not allow always fails validation;
   * the name and path variants get their own message, STATUS_NOT_FOUND the
   * generic one.
   */
  lemma NotFoundFailsValidation(status: NTStatus, failureMessage: string,
                                fileName: Option<WString>, allowed: seq<NTStatus>)
    requires NotFound(status, None) && status !in allowed
    ensures var r := ValidateStatusFor(status, failureMessage, fileName, allowed);
      && r.Failure?
      && (status == STATUS_OBJECT_NAME_NOT_FOUND ==> r.error == FileNotFound(fileName))
      && (status == STATUS_OBJECT_PATH_NOT_FOUND ==> r.error == PathNotFound(fileName))
      && (status == STATUS_NOT_FOUND ==> r.error == ValidationFailure(failureMessage, status, allowed))
  {
  }

  // ---------------------------------------------------------------------
  // FileMode to CreateDisposition
  // ---------------------------------------------------------------------

  /** The System.IO.FileMode values: CreateNew = 1 … Append = 6, and UndefinedMode for any other number. */
  datatype FileModeValue = CreateNew | Create | Open | OpenOrCreate | Truncate | Append | UndefinedMode(value: int)

  /** A FileMode: UndefinedMode never carries the number of a named mode. */
  type FileMode = m: FileModeValue | m.UndefinedMode? ==> !(1 <= m.value <= 6) witness Open

  /** SMB2 CreateDisposition (section 2.2.13 of MS-SMB2). */
  datatype CreateDisposition =
    | FILE_SUPERSEDE | FILE_OPEN | FILE_CREATE | FILE_OPEN_IF | FILE_OVERWRITE | FILE_OVERWRITE_IF

  /** What an open does to a file that already exists. */
  datatype IfExists = FailIfExists | KeepExisting | ReplaceExisting

  /** What an open does, stated as: if the file exists …, and whether it creates a missing one. */
  datatype OpenBehaviour = OpenBehaviour(ifExists: IfExists, createsIfMissing: bool)

  /** The meaning of each disposition, as section 2.2.13 of MS-SMB2 defines it. */
  function DispositionBehaviour(d: CreateDisposition): OpenBehaviour {
    match d
    case FILE_SUPERSEDE => OpenBehaviour(ReplaceExisting, true)
    case FILE_OPEN => OpenBehaviour(KeepExisting, false)
    case FILE_CREATE => OpenBehaviour(FailIfExists, true)
    case FILE_OPEN_IF => OpenBehaviour(KeepExisting, true)
    case FILE_OVERWRITE => OpenBehaviour(ReplaceExisting, false)
    case FILE_OVERWRITE_IF => OpenBehaviour(ReplaceExisting, true)
  }

  /** The meaning of each named FileMode, as System.IO documents it (Append also seeks to the end). */
  function ModeBehaviour(mode: FileMode): OpenBehaviour
    requires !mode.UndefinedMode?
  {
    match mode
    case CreateNew => OpenBehaviour(FailIfExists, true)
    case Create => OpenBehaviour(ReplaceExisting, true)
    case Open => OpenBehaviour(KeepExisting, false)
    case OpenOrCreate => OpenBehaviour(KeepExisting, true)
    case Truncate => OpenBehaviour(ReplaceExisting, false)
    case Append => OpenBehaviour(KeepExisting, true)
  }

  /**
   * FileModeToCreateDisposition: for a file every named mode maps to the
   * disposition that behaves as the mode does; Create on a directory asks for
   * a new directory instead of replacing one; an undefined mode opens.
   */
  function FileModeToCreateDisposition(mode: FileMode, isDirectory: bool): (r: CreateDisposition)
    ensures r != FILE_SUPERSEDE
    ensures !mode.UndefinedMode? && !(isDirectory && mode == Create) ==>
      DispositionBehaviour(r) == ModeBehaviour(mode)
    ensures isDirectory && mode == Create ==>
      DispositionBehaviour(r) == OpenBehaviour(FailIfExists, ModeBehaviour(mode).createsIfMissing)
    ensures mode.UndefinedMode? ==> r == FILE_OPEN
  {
    match mode
    case Open => FILE_OPEN
    case Append => FILE_OPEN_IF
    case Create => if isDirectory then FILE_CREATE else FILE_OVERWRITE_IF
    case CreateNew => FILE_CREATE
    case OpenOrCreate => FILE_OPEN_IF
    case Truncate => FILE_OVERWRITE
    case UndefinedMode(_) => FILE_OPEN
  }

  /** Only the modes that replace or create-new lead to a disposition that does so. */
  lemma DestructiveDispositions(mode: FileMode, isDirectory: bool)
    ensures var d := FileModeToCreateDisposition(mode, isDirectory);
      && (d in {FILE_OVERWRITE, FILE_OVERWRITE_IF} <==> mode == Truncate || (mode == Create && !isDirectory))
      && (d == FILE_CREATE <==> mode == CreateNew || (mode == Create && isDirectory))
  {
  }

  // ---------------------------------------------------------------------
  // Access masks
  // ---------------------------------------------------------------------

  /** An AccessMask bit (section 2.2.13.1 of MS-SMB2); the five the tables name, and the rest. */
  datatype AccessRight = GENERIC_READ | GENERIC_WRITE | GENERIC_ALL | DELETE | SYNCHRONIZE | OtherRight(bit: nat)

  type AccessMask = set<AccessRight>

  /** A single flag of a [Flags] enum: one bit, 1, 2, 4, 8, ... */
  predicate IsPowerOfTwo(n: nat) {
    n == 1 || (n >= 2 && n % 2 == 0 && IsPowerOfTwo(n / 2))
  }

  /**
   * An SmbFileAccess flag: Read = 1, Write = 2, Delete = 4, and OtherSmbAccess
   * for a single-bit flag value the enum does not name; None is the empty set and
   * ReadWrite is {Read, Write}.
   */
  datatype SmbAccessFlag = SmbRead | SmbWrite | SmbDelete | OtherSmbAccess(bit: nat)

  type SmbAccess = a: SmbAccessFlag | a.OtherSmbAccess? ==> IsPowerOfTwo(a.bit) && a.bit !in {1, 2, 4} witness SmbRead

  /** The number of an SmbFileAccess flag. */
  function SmbFlagValue(a: SmbAccess): nat {
    match a
    case SmbRead => 1
    case SmbWrite => 2
    case SmbDelete => 4
    case OtherSmbAccess(b) => b
  }

  type SmbFileAccess = set<SmbAccess>

  const SmbReadWrite: SmbFileAccess := {SmbRead, SmbWrite}

  /**
   * A System.IO.FileAccess flag: Read = 1, Write = 2, and OtherIoAccess for
   * a single-bit flag value the enum does not name; ReadWrite is both.
   */
  datatype IoAccessFlag = IoRead | IoWrite | OtherIoAccess(bit: nat)

  type IoAccess = a: IoAccessFlag | a.OtherIoAccess? ==> IsPowerOfTwo(a.bit) && a.bit !in {1, 2} witness IoRead

  /** The number of a FileAccess flag. */
  function IoFlagValue(a: IoAccess): nat {
    match a
    case IoRead => 1
    case IoWrite => 2
    case OtherIoAccess(b) => b
  }

  type FileAccess = set<IoAccess>

  /** AccessMaskToFileAccess: Read, Write and Delete exactly for GENERIC_READ, GENERIC_WRITE and DELETE. */
  function AccessMaskToFileAccess(mask: AccessMask): (r: SmbFileAccess)
    ensures SmbRead in r <==> GENERIC_READ in mask
    ensures SmbWrite in r <==> GENERIC_WRITE in mask
    ensures SmbDelete in r <==> DELETE in mask
    ensures r <= {SmbRead, SmbWrite, SmbDelete}
  {
    (if GENERIC_READ in mask then {SmbRead} else {})
    + (if GENERIC_WRITE in mask then {SmbWrite} else {})
    + (if DELETE in mask then {SmbDelete} else {})
  }

  /** The mask both Write and ReadWrite ask for. */
  const ReadWriteMask: AccessMask := {GENERIC_WRITE, GENERIC_READ, SYNCHRONIZE}

  /** FileAccessToAccessMask(FileAccess): Write and Read by table, ReadWrite and everything else GENERIC_ALL. */
  function IoAccessToAccessMask(access: FileAccess): (r: AccessMask)
    ensures access == {IoWrite} ==> r == ReadWriteMask
    ensures access == {IoRead} ==> r == {GENERIC_READ, SYNCHRONIZE}
    ensures access != {IoWrite} && access != {IoRead} ==> r == {GENERIC_ALL}
  {
    if access == {IoWrite} then ReadWriteMask
    else if access == {IoRead} then {GENERIC_READ, SYNCHRONIZE}
    else {GENERIC_ALL}
  }

  /** FileAccessToAccessMask(SmbFileAccess): four named values by table, everything else GENERIC_ALL. */
  function SmbAccessToAccessMask(access: SmbFileAccess): (r: AccessMask)
    ensures access == {SmbWrite} || access == SmbReadWrite ==> r == ReadWriteMask
    ensures access == {SmbRead} ==> r == {GENERIC_READ, SYNCHRONIZE}
    ensures access == {SmbDelete} ==> r == {DELETE}
    ensures access !in {{SmbWrite}, {SmbRead}, {SmbDelete}, SmbReadWrite} ==> r == {GENERIC_ALL}
  {
    if access == {SmbWrite} then ReadWriteMask
    else if access == {SmbRead} then {GENERIC_READ, SYNCHRONIZE}
    else if access == {SmbDelete} then {DELETE}
    else if access == SmbReadWrite then ReadWriteMask
    else {GENERIC_ALL}
  }

  /**
   * The way back: for the four named values the mask grants at least what was
   * asked for (Write comes back as ReadWrite); every other value, including
   * None and Read|Delete, becomes GENERIC_ALL, which maps back to None.
   */
  lemma SmbAccessRoundTrip(access: SmbFileAccess)
    ensures access in {{SmbRead}, {SmbDelete}, SmbReadWrite} ==>
      AccessMaskToFileAccess(SmbAccessToAccessMask(access)) == access
    ensures access == {SmbWrite} ==> AccessMaskToFileAccess(SmbAccessToAccessMask(access)) == SmbReadWrite
    ensures access !in {{SmbWrite}, {SmbRead}, {SmbDelete}, SmbReadWrite} ==>
      AccessMaskToFileAccess(SmbAccessToAccessMask(access)) == {}
  {
  }

  /** The SmbFileAccess flag with the same number as a FileAccess flag. */
  function IoToSmbFlag(a: IoAccess): (r: SmbAccess)
    ensures SmbFlagValue(r) == IoFlagValue(a)
  {
    match a
    case IoRead => SmbRead
    case IoWrite => SmbWrite
    case OtherIoAccess(b) => if b == 4 then SmbDelete else OtherSmbAccess(b)
  }

  /**
   * SmbToIoFileAccess's numeric cast: every flag keeps its number, so Read
   * and Write stay Read and Write and FileAccess's unnamed flag 4 becomes
   * Delete.
   */
  function IoToSmbAccess(access: FileAccess): (r: SmbFileAccess)
    ensures SmbRead in r <==> IoRead in access
    ensures SmbWrite in r <==> IoWrite in access
    ensures SmbDelete in r <==> OtherIoAccess(4) in access
  {
    set a | a in access :: IoToSmbFlag(a)
  }

  /** The cast keeps the numbers: the flags set after it are those set before. */
  lemma CastKeepsFlagValues(access: FileAccess)
    ensures (set a | a in IoToSmbAccess(access) :: SmbFlagValue(a)) == (set a | a in access :: IoFlagValue(a))
  {
    var r := IoToSmbAccess(access);
    var after, before := set a | a in r :: SmbFlagValue(a), set a | a in access :: IoFlagValue(a);
    forall n | n in after
      ensures n in before
    {
      var a :| a in r && SmbFlagValue(a) == n;
      var b :| b in access && IoToSmbFlag(b) == a;
    }
    forall n | n in before
      ensures n in after
    {
      var b :| b in access && IoFlagValue(b) == n;
      assert IoToSmbFlag(b) in r;
    }
  }

  /** The two overloads agree on Read and on Write and part ways on ReadWrite. */
  lemma AccessOverloadsCompared()
    ensures IoAccessToAccessMask({IoRead}) == SmbAccessToAccessMask(IoToSmbAccess({IoRead}))
    ensures IoAccessToAccessMask({IoWrite}) == SmbAccessToAccessMask(IoToSmbAccess({IoWrite}))
    ensures IoAccessToAccessMask({IoRead, IoWrite}) == {GENERIC_ALL}
    ensures SmbAccessToAccessMask(IoToSmbAccess({IoRead, IoWrite})) == ReadWriteMask
  {
    assert IoToSmbAccess({IoRead}) == {SmbRead};
    assert IoToSmbAccess({IoWrite}) == {SmbWrite};
    assert IoToSmbAccess({IoRead, IoWrite}) == SmbReadWrite;
  }

  // ---------------------------------------------------------------------
  // Sharing and create options
  // ---------------------------------------------------------------------

  /** A System.IO.FileShare bit (Read = 1, Write = 2, Delete = 4; Inheritable and others unnamed here). */
  datatype FileShareBit = ShareRead | ShareWrite | ShareDelete | OtherShare(bit: nat)

  type FileShare = set<FileShareBit>

  /** An SMB2 ShareAccess bit (section 2.2.13 of MS-SMB2). */
  datatype ShareAccessBit = FILE_SHARE_READ | FILE_SHARE_WRITE | FILE_SHARE_DELETE

  type ShareAccess = set<ShareAccessBit>

  /** FileShareToShareAccess: Delete, Read and Write are copied bit for bit; nothing else is. */
  function FileShareToShareAccess(share: FileShare): (r: ShareAccess)
    ensures FILE_SHARE_READ in r <==> ShareRead in share
    ensures FILE_SHARE_WRITE in r <==> ShareWrite in share
    ensures FILE_SHARE_DELETE in r <==> ShareDelete in share
  {
    (if ShareDelete in share then {FILE_SHARE_DELETE} else {})
    + (if ShareRead in share then {FILE_SHARE_READ} else {})
    + (if ShareWrite in share then {FILE_SHARE_WRITE} else {})
  }

  /** The named part of a FileShare. */
  function NamedShare(share: FileShare): FileShare {
    share * {ShareRead, ShareWrite, ShareDelete}
  }

  /** Two sharing modes translate alike exactly when they agree on Read, Write and Delete. */
  lemma FileShareTranslationExact(a: FileShare, b: FileShare)
    ensures FileShareToShareAccess(a) == FileShareToShareAccess(b) <==> NamedShare(a) == NamedShare(b)
  {
    if FileShareToShareAccess(a) == FileShareToShareAccess(b) {
      assert ShareRead in a <==> FILE_SHARE_READ in FileShareToShareAccess(b);
      assert ShareWrite in a <==> FILE_SHARE_WRITE in FileShareToShareAccess(b);
      assert ShareDelete in a <==> FILE_SHARE_DELETE in FileShareToShareAccess(b);
      forall x ensures x in NamedShare(a) <==> x in NamedShare(b) {
      }
    } else {
      var x :| x in FileShareToShareAccess(a) <==> x !in FileShareToShareAccess(b);
      match x
      case FILE_SHARE_READ => assert ShareRead in NamedShare(a) <==> ShareRead !in NamedShare(b);
      case FILE_SHARE_WRITE => assert ShareWrite in NamedShare(a) <==> ShareWrite !in NamedShare(b);
      case FILE_SHARE_DELETE => assert ShareDelete in NamedShare(a) <==> ShareDelete !in NamedShare(b);
    }
  }

  /** A System.IO.FileOptions bit; Asynchronous, Encrypted and others are unnamed here. */
  datatype FileOption = DeleteOnClose | RandomAccess | SequentialScan | WriteThrough | OtherOption(bit: nat)

  type FileOptions = set<FileOption>

  /** An SMB2 CreateOptions bit (section 2.2.13 of MS-SMB2) that the translation can set. */
  datatype CreateOption =
    | FILE_DIRECTORY_FILE | FILE_NON_DIRECTORY_FILE | FILE_DELETE_ON_CLOSE
    | FILE_RANDOM_ACCESS | FILE_SEQUENTIAL_ONLY | FILE_WRITE_THROUGH

  type CreateOptions = set<CreateOption>

  /**
   * FileOptionsToCreateOptions: exactly one of the directory and
   * non-directory bits, chosen by isDirectory, plus one bit for each of the
   * four options that is set.
   */
  function FileOptionsToCreateOptions(options: FileOptions, isDirectory: bool): (r: CreateOptions)
    ensures FILE_DIRECTORY_FILE in r <==> isDirectory
    ensures FILE_NON_DIRECTORY_FILE in r <==> !isDirectory
    ensures FILE_DELETE_ON_CLOSE in r <==> DeleteOnClose in options
    ensures FILE_RANDOM_ACCESS in r <==> RandomAccess in options
    ensures FILE_SEQUENTIAL_ONLY in r <==> SequentialScan in options
    ensures FILE_WRITE_THROUGH in r <==> WriteThrough in options
  {
    (if isDirectory then {FILE_DIRECTORY_FILE} else {FILE_NON_DIRECTORY_FILE})
    + (if DeleteOnClose in options then {FILE_DELETE_ON_CLOSE} else {})
    + (if RandomAccess in options then {FILE_RANDOM_ACCESS} else {})
    + (if SequentialScan in options then {FILE_SEQUENTIAL_ONLY} else {})
    + (if WriteThrough in options then {FILE_WRITE_THROUGH} else {})
  }

  /**
   * Unnamed options are dropped, and the translation is otherwise exact: two
   * option sets translate alike (for the same kind of object) exactly when
   * they agree on the four named options.
   */
  lemma CreateOptionsTranslationExact(a: FileOptions, b: FileOptions, isDirectory: bool)
    ensures (FileOptionsToCreateOptions(a, isDirectory) == FileOptionsToCreateOptions(b, isDirectory))
        <==> (a * {DeleteOnClose, RandomAccess, SequentialScan, WriteThrough}
              == b * {DeleteOnClose, RandomAccess, SequentialScan, WriteThrough})
  {
    var named := {DeleteOnClose, RandomAccess, SequentialScan, WriteThrough};
    var ra, rb := FileOptionsToCreateOptions(a, isDirectory), FileOptionsToCreateOptions(b, isDirectory);
    if ra == rb {
      forall x | x in named ensures x in a <==> x in b {
        match x
        case DeleteOnClose => assert FILE_DELETE_ON_CLOSE in ra <==> FILE_DELETE_ON_CLOSE in rb;
        case RandomAccess => assert FILE_RANDOM_ACCESS in ra <==> FILE_RANDOM_ACCESS in rb;
        case SequentialScan => assert FILE_SEQUENTIAL_ONLY in ra <==> FILE_SEQUENTIAL_ONLY in rb;
        case WriteThrough => assert FILE_WRITE_THROUGH in ra <==> FILE_WRITE_THROUGH in rb;
      }
      assert a * named == b * named;
    } else {
      var x :| x in ra <==> x !in rb;
      match x
      case FILE_DIRECTORY_FILE =>
      case FILE_NON_DIRECTORY_FILE =>
      case FILE_DELETE_ON_CLOSE => assert DeleteOnClose in a * named <==> DeleteOnClose !in b * named;
      case FILE_RANDOM_ACCESS => assert RandomAccess in a * named <==> RandomAccess !in b * named;
      case FILE_SEQUENTIAL_ONLY => assert SequentialScan in a * named <==> SequentialScan !in b * named;
      case FILE_WRITE_THROUGH => assert WriteThrough in a * named <==> WriteThrough !in b * named;
    }
  }
}
