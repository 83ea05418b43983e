/**
 * Where a report goes: show prints it on the terminal when no path is given and otherwise hands
 * it to toFile, which refuses a directory path, creates the parent directory, creates the file
 * when it does not exist and prints the report into it. The effects are recorded as a trace of
 * actions; what the file system answers to each call is a parameter.
 */
module FileOutput {
  import opened JavaText

  datatype Action =
    | TerminalPrintln(text: string)
    | ErrorPrintln(message: string)
    | CreateDirectories(dir: string)
    | CreateNewFile(path: string)
    | OpenForWriting(path: string)
    | FilePrintln(path: string, text: string)

  /** The actions that touch the file system. */
  predicate TouchesFiles(a: Action) {
    a.CreateDirectories? || a.CreateNewFile? || a.OpenForWriting? || a.FilePrintln?
  }

  /** File.createNewFile: true when it created the file, false when one was there, or an exception. */
  datatype CreateResult = Made | AlreadyThere | Throws

  /**
   * The answers of the file system for one call of toFile: whether creating the directories
   * succeeds, whether the file exists, how creating it ends, and whether opening it for writing
   * (new PrintStream, which truncates it) succeeds. PrintStream.println reports no errors, so
   * once the file is open the report is printed.
   */
  datatype Disk = Disk(dirsOk: bool, fileExists: bool, create: CreateResult, openOk: bool)

  function NotAFilePath(path: string): string {
    path + " is not a file path!"
  }

  function CreateDirectoryError(dir: string): string {
    "create directory[" + dir + "] error!"
  }

  function CreateFileError(path: string): string {
    "create file[" + path + "] error!"
  }

  function WriteFileError(path: string): string {
    "write file[" + path + "] error!"
  }

  /**
   * The steps of toFile from the file on: create it if missing, then, if that went well, open it
   * and print into it, or report the failure to open it.
   */
  function FileSteps(path: string, content: string, disk: Disk): seq<Action> {
    var create := if disk.fileExists then [] else [CreateNewFile(path)];
    if !disk.fileExists && disk.create.Throws? then create + [ErrorPrintln(CreateFileError(path))]
    else if !disk.fileExists && disk.create.AlreadyThere? then create
    else create + [OpenForWriting(path)]
         + if disk.openOk then [FilePrintln(path, content)] else [ErrorPrintln(WriteFileError(path))]
  }

  /** The actions of toFile(path, content) with separator sep. */
  function FileTrace(path: string, content: string, sep: char, disk: Disk): seq<Action> {
    if EndsWith(path, sep) then [ErrorPrintln(NotAFilePath(path))]
    else
      var idx := LastIndexOf(path, sep);
      if idx < 0 then FileSteps(path, content, disk)
      else if !disk.dirsOk then [CreateDirectories(path[..idx]), ErrorPrintln(CreateDirectoryError(path[..idx]))]
      else [CreateDirectories(path[..idx])] + FileSteps(path, content, disk)
  }

  /** toFile(filePath, content): the early returns and the fileOk flag of the source. */
  method ToFile(path: string, content: string, sep: char, disk: Disk) returns (trace: seq<Action>)
    ensures trace == FileTrace(path, content, sep, disk)
  {
    trace := [];
    if EndsWith(path, sep) {
      trace := trace + [ErrorPrintln(NotAFilePath(path))];
      return;
    }
    var idx := LastIndexOf(path, sep);
    if idx >= 0 {
      var dir := path[..idx];
      trace := trace + [CreateDirectories(dir)];
      if !disk.dirsOk {
        trace := trace + [ErrorPrintln(CreateDirectoryError(dir))];
        return;
      }
    }
    var fileOk := true;
    if !disk.fileExists {
      trace := trace + [CreateNewFile(path)];
      if disk.create.Throws? {
        trace := trace + [ErrorPrintln(CreateFileError(path))];
        return;
      }
      fileOk := disk.create.Made?;
    }
    if fileOk {
      trace := trace + [OpenForWriting(path)];
      if disk.openOk {
        trace := trace + [FilePrintln(path, content)];
      } else {
        trace := trace + [ErrorPrintln(WriteFileError(path))];
      }
    }
  }

  /** The actions of show(filePath, content); a missing path is the empty one. */
  function ShowTrace(path: string, content: string, sep: char, disk: Disk): seq<Action> {
    if |path| > 0 then FileTrace(path, content, sep, disk) else [TerminalPrintln(content)]
  }

  /** show(filePath, content). */
  method Show(path: string, content: string, sep: char, disk: Disk) returns (trace: seq<Action>)
    ensures trace == ShowTrace(path, content, sep, disk)
  {
    if |path| > 0 {
      trace := ToFile(path, content, sep, disk);
    } else {
      trace := [TerminalPrintln(content)];
    }
  }

  /** The report reaches the terminal exactly when no path is given, and then nothing else happens. */
  lemma ShowTerminalIffNoPath(path: string, content: string, sep: char, disk: Disk)
    ensures TerminalPrintln(content) in ShowTrace(path, content, sep, disk) <==> |path| == 0
    ensures |path| == 0 ==> ShowTrace(path, content, sep, disk) == [TerminalPrintln(content)]
  {
  }

  /**
   * A path that ends with the separator is refused with one error and no file system action; any
   * other path touches the file system.
   */
  lemma DirectoryPathRefused(path: string, content: string, sep: char, disk: Disk)
    ensures EndsWith(path, sep) ==> FileTrace(path, content, sep, disk) == [ErrorPrintln(NotAFilePath(path))]
    ensures EndsWith(path, sep)
            <==> forall k :: 0 <= k < |FileTrace(path, content, sep, disk)| ==> !TouchesFiles(FileTrace(path, content, sep, disk)[k])
  {
    var trace := FileTrace(path, content, sep, disk);
    if !EndsWith(path, sep) {
      assert TouchesFiles(trace[0]);
    }
  }

  /** The last separator is the one with no separator after it. */
  lemma LastSeparator(path: string, sep: char, k: int)
    requires 0 <= k < |path| && path[k] == sep
    ensures sep !in path[k + 1..] <==> k == LastIndexOf(path, sep)
  {
    var idx := LastIndexOf(path, sep);
    if sep !in path[k + 1..] {
      forall j | k < j < |path|
        ensures path[j] != sep
      {
        assert path[j] == path[k + 1..][j - k - 1];
      }
    } else {
      var j :| 0 <= j < |path[k + 1..]| && path[k + 1..][j] == sep;
      assert path[k + 1 + j] == sep;
    }
  }

  /** A directory is created only as the parent of the path. */
  lemma DirectoryCreated(path: string, content: string, sep: char, disk: Disk, dir: string)
    requires !EndsWith(path, sep)
    ensures CreateDirectories(dir) in FileTrace(path, content, sep, disk)
            <==> LastIndexOf(path, sep) >= 0 && dir == path[..LastIndexOf(path, sep)]
  {
    var steps := FileSteps(path, content, disk);
    assert forall k :: 0 <= k < |steps| ==> !steps[k].CreateDirectories?;
  }

  /**
   * The parent directory is the part of the path before its last separator, and it is created
   * only when the path holds a separator.
   */
  lemma ParentDirectory(path: string, content: string, sep: char, disk: Disk, dir: string)
    requires !EndsWith(path, sep)
    ensures CreateDirectories(dir) in FileTrace(path, content, sep, disk)
            <==> exists k :: 0 <= k < |path| && path[k] == sep && dir == path[..k] && sep !in path[k + 1..]
  {
    DirectoryCreated(path, content, sep, disk, dir);
    var idx := LastIndexOf(path, sep);
    if idx >= 0 && dir == path[..idx] {
      LastSeparator(path, sep, idx);
      assert 0 <= idx < |path| && path[idx] == sep && dir == path[..idx] && sep !in path[idx + 1..];
    } else if exists k :: 0 <= k < |path| && path[k] == sep && dir == path[..k] && sep !in path[k + 1..] {
      var k :| 0 <= k < |path| && path[k] == sep && dir == path[..k] && sep !in path[k + 1..];
      LastSeparator(path, sep, k);
    }
  }

  /** What follows the last separator of a file path is a non-empty name without a separator. */
  lemma FileNameAfterParent(path: string, sep: char)
    requires !EndsWith(path, sep) && sep in path
    ensures var idx := LastIndexOf(path, sep);
            && 0 <= idx
            && path == path[..idx] + [sep] + path[idx + 1..]
            && sep !in path[idx + 1..]
            && |path[idx + 1..]| > 0
  {
    var idx := LastIndexOf(path, sep);
    LastSeparator(path, sep, idx);
    assert path == path[..idx] + [sep] + path[idx + 1..];
  }

  /**
   * The report is printed into the file exactly when nothing failed: the path is a file path,
   * the parent directory (if any) was created, the file existed or was created, and it could be
   * opened for writing. A file that appeared in between (createNewFile answering false) ends
   * toFile silently. An error, if any, is the last action.
   */
  lemma WritesIffNoFailure(path: string, content: string, sep: char, disk: Disk)
    ensures FilePrintln(path, content) in FileTrace(path, content, sep, disk)
            <==> && !EndsWith(path, sep)
                 && (sep in path ==> disk.dirsOk)
                 && (disk.fileExists || disk.create.Made?)
                 && disk.openOk
    ensures var trace := FileTrace(path, content, sep, disk);
            forall k :: 0 <= k < |trace| && trace[k].ErrorPrintln? ==> k == |trace| - 1
  {
  }
}
