/** The file thread of the server: it executes the queued operations one by one on handles that
    are shared by all clients of a file and counted by their set of operators. */
module FileThread {
  import opened Streams
  import opened DownloadClient

  /** The files being served.  They do not change. */
  type Disk = map<Path, seq<byte>>

  /** `async_file_handle`; `open` is `fp != NULL`. */
  datatype Handle = Handle(open: bool, size: nat, operators: set<ClientId>)

  /** `files_`.  `faulted` records that a null handle or a null `fp` was used.  That is undefined
      behaviour, which as a rule ends the whole process; the model stops the file thread and lets
      everything else go on, so what it proves of runs beyond this point is about programs that live. */
  datatype Thread = Thread(files: map<Path, Handle>, faulted: bool)

  /** `fread` of up to `size` bytes at `offset`, asked to deliver `n`: a short count is allowed, and
      nothing at all is reported as a failure. */
  function FRead(file: seq<byte>, offset: nat, size: nat, n: nat): (r: Option<Block>)
    ensures r.Some? ==> offset + |r.value| <= |file| && r.value == file[offset..offset + |r.value|]
    ensures r.Some? <==> n > 0 && size > 0 && offset < |file|
    ensures r.Some? ==> |r.value| == Min(n, Min(size, |file| - offset))
  {
    if offset >= |file| then None
    else
      var got := Min(n, Min(size, |file| - offset));
      if got == 0 then None else Some(file[offset..offset + got])
  }

  datatype Executed = Executed(thread: Thread, posted: seq<Posted>)

  /** One operation in `file_access_thread_proc`.  `n` is how much `fread` feels like delivering. */
  function Exec(disk: Disk, t: Thread, op: FileOp, n: nat): Executed {
    match op
    case Read(c, p, offset, size) =>
      if p !in t.files then Executed(t.(faulted := true), [])
      else if c !in t.files[p].operators then Executed(t, [ReadDone(c, None)])
      else if !t.files[p].open || p !in disk then Executed(t.(faulted := true), [])
      else Executed(t, [ReadDone(c, FRead(disk[p], offset, size, n))])
    case Open(c, p) =>
      var h := if p in t.files then t.files[p] else Handle(false, 0, {});
      if h.open then
        Executed(t.(files := t.files[p := h.(operators := h.operators + {c})]), [OpenDone(c, Some(p), h.size)])
      else if p in disk then
        Executed(t.(files := t.files[p := Handle(true, |disk[p]|, h.operators + {c})]),
                 [OpenDone(c, Some(p), |disk[p]|)])
      else
        Executed(t.(files := t.files[p := h]), [OpenDone(c, None, 0)])
    case Close(c, handle) =>
      if handle.None? || handle.value !in t.files then Executed(t.(faulted := true), [])
      else
        var h := t.files[handle.value];
        var left := h.operators - {c};
        if left != {} then Executed(t.(files := t.files[handle.value := h.(operators := left)]), [])
        else if !h.open then Executed(t.(faulted := true), [])
        else Executed(t.(files := t.files[handle.value := Handle(false, h.size, {})]), [])
  }

  /** A file is open exactly while somebody is registered on it. */
  ghost predicate HandlesInv(disk: Disk, t: Thread) {
    forall p :: p in t.files ==>
      && (t.files[p].open <==> t.files[p].operators != {})
      && (t.files[p].open ==> p in disk && t.files[p].size == |disk[p]|)
  }

  /** The files a client is registered on. */
  function Registered(t: Thread, c: ClientId): set<Path> {
    set p | p in t.files && c in t.files[p].operators
  }
}
