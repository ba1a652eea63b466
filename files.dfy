/**
 * The file system as the relay sees it: named files holding text, and the
 * outcomes of the open/write/close system calls, which come from outside the
 * model.
 */
module Files {

  /**
   * What the system calls behind one file operation do.
   * openFails: open() fails for a reason other than a missing file (for
   *   reading) or fails at all (for writing).
   * written: how many bytes one write() call accepts.
   * closeFails: close() fails.
   */
  datatype Io = Io(openFails: bool, written: nat, closeFails: bool)

  /** The result of opening a file for reading. */
  datatype Opened = Missing | Refused | Readable(content: seq<char>)

  /** Opening for reading fails with ENOENT exactly when the file does not exist. */
  function OpenForReading(files: map<string, seq<char>>, path: string, io: Io): (r: Opened)
    ensures r.Missing? <==> path !in files
    ensures r.Readable? ==> path in files && r.content == files[path]
  {
    if path !in files then Missing
    else if io.openFails then Refused
    else Readable(files[path])
  }

  class FileStore {
    var files: map<string, seq<char>>

    constructor (files: map<string, seq<char>>)
      ensures this.files == files
    {
      this.files := files;
    }
  }
}
