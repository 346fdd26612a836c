/** Blob storage on disk: file contents addressed by their path. */
module Blobs {
  import opened Wrappers
  import opened Foreign

  /** The folder used when `FOLDER_PATH` is unset or empty. */
  const DefaultFolderPath := "/tmp/files_manager"

  /** `process.env.FOLDER_PATH || '/tmp/files_manager'` */
  function FolderPath(env: Option<string>): (path: string)
    ensures path != ""
    ensures path == DefaultFolderPath || env == Some(path)
    ensures env.Some? && env.value != "" ==> path == env.value
  {
    if env.Some? && env.value != "" then env.value else DefaultFolderPath
  }

  /** `path.join(folder, name)` for a name without separators. */
  function BlobPath(folder: string, name: string): (path: string)
    ensures |path| == |folder| + 1 + |name|
    ensures path[..|folder|] == folder && path[|folder|] == '/' && path[|folder| + 1..] == name
  {
    folder + "/" + name
  }

  /** Within one folder, different names give different paths. */
  lemma BlobPathInjective(folder: string, a: string, b: string)
    requires BlobPath(folder, a) == BlobPath(folder, b)
    ensures a == b
  {
    assert a == BlobPath(folder, a)[|folder| + 1..];
  }

  class Disk {
    var blobs: map<string, seq<Byte>>

    constructor ()
      ensures blobs == map[]
    {
      blobs := map[];
    }

    /** `fs.writeFileSync(path, content)`: creates or replaces the blob. */
    method WriteFile(path: string, content: seq<Byte>)
      modifies this
      ensures blobs == old(blobs)[path := content]
    {
      blobs := blobs[path := content];
    }
  }
}
