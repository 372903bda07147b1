/** The job directory's files: JSON manifests and disk sub-queue files. */
module Files {
  import opened Requests

  /** JsonList is what json.dump writes for a list of priorities; QueueFile is a disk sub-queue's
      records in FIFO order; Unparsable is any content json.load rejects. */
  datatype File = JsonList(values: seq<int>) | QueueFile(records: seq<Record>) | Unparsable

  class FileSystem {
    var files: map<string, File>

    constructor (files: map<string, File>)
      ensures this.files == files
    {
      this.files := files;
    }
  }
}
