/**
  operations.go: mutation operations and their normalisation. An operation is generic in its
  path type: `Operation<string>` is what a caller or a replay file supplies,
  `Operation<Path>` is a normalised operation.
 */
module Operations {
  import opened Wrappers
  import opened Strings
  import opened Paths

  const MAX_POSIX_FILE_MODE := 0x0fff   // 0o7777

  datatype Operation<P> =
    | CreateFile(path: P, mode: nat, data: seq<Byte>)
    | CreateDir(path: P, mode: nat)
    | CreateSymlink(path: P, linkTarget: string)
    | CreateHardlink(path: P, sourcePath: P)
    | Delete(path: P)
    | Rename(path: P, destination: P)
    | Chmod(path: P, mode: nat)
    | Chown(path: P, uid: int, gid: int)
    | Truncate(path: P, size: int)
    | Append(path: P, data: seq<Byte>)
    | OverwriteRange(path: P, offset: int, data: seq<Byte>)
    | SetXAttr(path: P, xattrName: string, xattrValue: seq<Byte>)
    | RemoveXAttr(path: P, xattrName: string)
    | UnknownKind(path: P, code: nat)

  datatype Kind =
    | KCreateFile | KCreateDir | KCreateSymlink | KCreateHardlink | KDelete | KRename
    | KChmod | KChown | KTruncate | KAppend | KOverwriteRange | KSetXAttr | KRemoveXAttr
    | KUnknown(code: nat)

  function KindOf<P>(op: Operation<P>): Kind {
    match op
    case CreateFile(_, _, _) => KCreateFile
    case CreateDir(_, _) => KCreateDir
    case CreateSymlink(_, _) => KCreateSymlink
    case CreateHardlink(_, _) => KCreateHardlink
    case Delete(_) => KDelete
    case Rename(_, _) => KRename
    case Chmod(_, _) => KChmod
    case Chown(_, _, _) => KChown
    case Truncate(_, _) => KTruncate
    case Append(_, _) => KAppend
    case OverwriteRange(_, _, _) => KOverwriteRange
    case SetXAttr(_, _, _) => KSetXAttr
    case RemoveXAttr(_, _) => KRemoveXAttr
    case UnknownKind(_, code) => KUnknown(code)
  }

  datatype OperationError =
    | KindInvalid
    | PathEmpty | PathContainsNul | PathNotRooted | PathIsRoot
    | ModeOutOfRange
    | LinkTargetEmpty | LinkTargetContainsNul
    | SameSourceAndTarget
    | NegativeOwner | NegativeSize | NegativeOffset
    | DataEmpty
    | XAttrNameEmpty | XAttrNameContainsNul | XAttrNameMissingNamespace

  type RawOperation = Operation<string>
  type NormalOperation = Operation<Path>

  function NormalizePath(raw: string, allowRoot: bool): Result<Path, OperationError> {
    if Trim(raw) == "" then Err(PathEmpty)
    else if NUL in raw then Err(PathContainsNul)
    else if raw[0] != '/' then Err(PathNotRooted)   // Clean keeps rootedness, both ways
    else
      var cleaned := Clean(raw);
      if !allowRoot && cleaned == [] then Err(PathIsRoot) else Ok(cleaned)
  }

  /** metadata.go's xattrNamespace: what stands before the first dot. */
  function XAttrNamespace(name: string): string {
    Split(name, '.')[0]
  }

  function ValidateXAttrName(name: string): Result<string, OperationError> {
    if name == "" then Err(XAttrNameEmpty)
    else if NUL in name then Err(XAttrNameContainsNul)
    else if '.' !in name || XAttrNamespace(name) == "" then Err(XAttrNameMissingNamespace)
    else if |name| <= |XAttrNamespace(name)| + 1 then Err(XAttrNameMissingNamespace)
    else Ok(name)
  }

  /** Kinds that may address the root. */
  predicate AllowsRoot<P>(op: Operation<P>) {
    op.Chmod? || op.Chown? || op.SetXAttr? || op.RemoveXAttr?
  }

  /** Every kind normalises its path first; what follows depends on the kind. */
  function NormalizeOperation(op: RawOperation): Result<NormalOperation, OperationError> {
    if op.UnknownKind? then Err(KindInvalid)
    else
      var path :- NormalizePath(op.path, AllowsRoot(op));
      match op
      case CreateFile(_, mode, data) =>
        if mode > MAX_POSIX_FILE_MODE then Err(ModeOutOfRange) else Ok(CreateFile(path, mode, data))
      case CreateDir(_, mode) =>
        if mode > MAX_POSIX_FILE_MODE then Err(ModeOutOfRange) else Ok(CreateDir(path, mode))
      case CreateSymlink(_, target) =>
        if target == "" then Err(LinkTargetEmpty)
        else if NUL in target then Err(LinkTargetContainsNul)
        else Ok(CreateSymlink(path, target))
      case CreateHardlink(_, rawSource) =>
        var source :- NormalizePath(rawSource, false);
        if path == source then Err(SameSourceAndTarget) else Ok(CreateHardlink(path, source))
      case Delete(_) => Ok(Delete(path))
      case Rename(_, rawDestination) =>
        var destination :- NormalizePath(rawDestination, false);
        if path == destination then Err(SameSourceAndTarget) else Ok(Rename(path, destination))
      case Chmod(_, mode) =>
        if mode > MAX_POSIX_FILE_MODE then Err(ModeOutOfRange) else Ok(Chmod(path, mode))
      case Chown(_, uid, gid) =>
        if uid < 0 || gid < 0 then Err(NegativeOwner) else Ok(Chown(path, uid, gid))
      case Truncate(_, size) =>
        if size < 0 then Err(NegativeSize) else Ok(Truncate(path, size))
      case Append(_, data) =>
        if data == [] then Err(DataEmpty) else Ok(Append(path, data))
      case OverwriteRange(_, offset, data) =>
        if offset < 0 then Err(NegativeOffset)
        else if data == [] then Err(DataEmpty)
        else Ok(OverwriteRange(path, offset, data))
      case SetXAttr(_, rawName, value) =>
        var name :- ValidateXAttrName(rawName);
        Ok(SetXAttr(path, name, value))
      case RemoveXAttr(_, rawName) =>
        var name :- ValidateXAttrName(rawName);
        Ok(RemoveXAttr(path, name))
      case UnknownKind(_, _) => Err(KindInvalid)
  }

  /** The string form of a normalised operation, as it is exported for replay. */
  function RenderOperation(op: NormalOperation): RawOperation {
    match op
    case CreateFile(path, mode, data) => CreateFile(Render(path), mode, data)
    case CreateDir(path, mode) => CreateDir(Render(path), mode)
    case CreateSymlink(path, target) => CreateSymlink(Render(path), target)
    case CreateHardlink(path, source) => CreateHardlink(Render(path), Render(source))
    case Delete(path) => Delete(Render(path))
    case Rename(path, destination) => Rename(Render(path), Render(destination))
    case Chmod(path, mode) => Chmod(Render(path), mode)
    case Chown(path, uid, gid) => Chown(Render(path), uid, gid)
    case Truncate(path, size) => Truncate(Render(path), size)
    case Append(path, data) => Append(Render(path), data)
    case OverwriteRange(path, offset, data) => OverwriteRange(Render(path), offset, data)
    case SetXAttr(path, name, value) => SetXAttr(Render(path), name, value)
    case RemoveXAttr(path, name) => RemoveXAttr(Render(path), name)
    case UnknownKind(path, code) => UnknownKind(Render(path), code)
  }

  /** What a normalised operation looks like, said without the normaliser. */
  predicate WellFormed(op: NormalOperation) {
    && Canonical(op.path)
    && (op.path == [] ==> AllowsRoot(op))
    && (op.CreateFile? || op.CreateDir? || op.Chmod? ==> op.mode <= MAX_POSIX_FILE_MODE)
    && (op.CreateSymlink? ==> op.linkTarget != "" && NUL !in op.linkTarget)
    && (op.CreateHardlink? ==>
          Canonical(op.sourcePath) && op.sourcePath != [] && op.sourcePath != op.path)
    && (op.Rename? ==> Canonical(op.destination) && op.destination != [] && op.destination != op.path)
    && (op.Chown? ==> op.uid >= 0 && op.gid >= 0)
    && (op.Truncate? ==> op.size >= 0)
    && (op.Append? || op.OverwriteRange? ==> op.data != [])
    && (op.OverwriteRange? ==> op.offset >= 0)
    && (op.SetXAttr? || op.RemoveXAttr? ==> ValidateXAttrName(op.xattrName).Ok?)
    && !op.UnknownKind?
  }

  /** A rooted string is never blank. */
  lemma RootedNotBlank(raw: string)
    requires raw != "" && raw[0] == '/'
    ensures Trim(raw) != ""
  {
    TrimRightKeepsSlash(TrimLeft(raw));
  }

  lemma {:induction false} TrimRightKeepsSlash(s: string)
    requires s != "" && s[0] == '/'
    ensures TrimRight(s) != ""
  {
    if |s| > 1 && IsSpace(s[|s| - 1]) { TrimRightKeepsSlash(s[..|s| - 1]); }
  }

  lemma {:induction false} RenderHasNoNul(p: Path)
    requires Canonical(p)
    ensures NUL !in Slashed(p)
  {
    if p != [] {
      assert ValidName(p[0]);
      RenderHasNoNul(p[1..]);
    }
  }

  /** Normalised paths are fixpoints of the path normaliser. */
  lemma NormalizePathFixpoint(p: Path, allowRoot: bool)
    requires Canonical(p) && (p == [] ==> allowRoot)
    ensures NormalizePath(Render(p), allowRoot) == Ok(p)
  {
    RootedNotBlank(Render(p));
    RenderHasNoNul(p);
    CleanRender(p);
  }

  lemma NormalizePathOutput(raw: string, allowRoot: bool)
    requires NormalizePath(raw, allowRoot).Ok?
    ensures Canonical(NormalizePath(raw, allowRoot).value)
    ensures NormalizePath(raw, allowRoot).value == [] ==> allowRoot
  {
    CleanCanonical(raw);
  }

  lemma XAttrNameFixpoint(name: string)
    requires ValidateXAttrName(name).Ok?
    ensures ValidateXAttrName(name).value == name
  {
  }

  /** The normaliser's outputs are well-formed. */
  lemma NormalizeProducesWellFormed(op: RawOperation)
    requires NormalizeOperation(op).Ok?
    ensures WellFormed(NormalizeOperation(op).value)
  {
    hide NormalizePath;
    NormalizePathOutput(op.path, AllowsRoot(op));
    match op
    case CreateHardlink(_, source) => NormalizePathOutput(source, false);
    case Rename(_, destination) => NormalizePathOutput(destination, false);
    case SetXAttr(_, name, _) => XAttrNameFixpoint(name);
    case RemoveXAttr(_, name) => XAttrNameFixpoint(name);
    case _ =>
  }

  lemma WellFormedNormalizes(op: NormalOperation)
    requires WellFormed(op)
    ensures NormalizeOperation(RenderOperation(op)) == Ok(op)
  {
    hide NormalizePath;
    NormalizePathFixpoint(op.path, AllowsRoot(op));
    match op
    case CreateHardlink(_, source) => NormalizePathFixpoint(source, false);
    case Rename(_, destination) => NormalizePathFixpoint(destination, false);
    case SetXAttr(_, name, _) => XAttrNameFixpoint(name);
    case RemoveXAttr(_, name) => XAttrNameFixpoint(name);
    case _ =>
  }

  /** Well-formed operations are exactly the fixpoints of normalisation. */
  lemma WellFormedIsFixpoint(op: NormalOperation)
    ensures WellFormed(op) <==> NormalizeOperation(RenderOperation(op)) == Ok(op)
  {
    hide NormalizePath;
    if WellFormed(op) {
      WellFormedNormalizes(op);
    }
    if NormalizeOperation(RenderOperation(op)) == Ok(op) {
      NormalizeProducesWellFormed(RenderOperation(op));
    }
  }

  /** Normalising twice is normalising once: export, parse and apply see one operation. */
  lemma NormalizeIdempotent(op: RawOperation)
    requires NormalizeOperation(op).Ok?
    ensures NormalizeOperation(RenderOperation(NormalizeOperation(op).value)) == NormalizeOperation(op)
  {
    NormalizeProducesWellFormed(op);
    WellFormedIsFixpoint(NormalizeOperation(op).value);
  }
}
