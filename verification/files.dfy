/**
 The file system the worker touches: file contents by absolute path, and the
 paths whose writes the operating system refuses, with the error text it gives.
 */
module Files {

  type Bytes = seq<bv8>

  datatype Disk = Disk(files: map<string, Bytes>, denied: map<string, string>)

  function Put(d: Disk, path: string, data: Bytes): (r: Disk)
    ensures path in r.files && r.files[path] == data
    ensures r.denied == d.denied
    ensures forall p :: p != path ==> (p in r.files <==> p in d.files)
    ensures forall p :: p != path && p in d.files ==> r.files[p] == d.files[p]
  {
    d.(files := d.files[path := data])
  }

  /** `os.remove` guarded by `os.path.exists`: a missing file is left missing. */
  function Delete(d: Disk, path: string): (r: Disk)
    ensures path !in r.files
    ensures r.denied == d.denied
    ensures forall p :: p != path ==> (p in r.files <==> p in d.files)
    ensures forall p :: p != path && p in d.files ==> r.files[p] == d.files[p]
  {
    d.(files := d.files - {path})
  }
}
