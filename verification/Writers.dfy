// PutBlob calls of internal/content/store.go interleaved: each is the steps check, create, copy, rename or remove.

module Writers {
  import opened Text
  import opened Content

  type WriterId = nat

  // Where one PutBlob call stands. `hashed` is what has gone through the digest.
  datatype Phase =
    | Checking(digest: string, source: seq<Chunk>)
    | Creating(digest: string, source: seq<Chunk>)
    | Copying(digest: string, source: seq<Chunk>, temp: string, hashed: Bytes)
    | Renaming(digest: string, temp: string, hashed: Bytes)
    | Removing(digest: string, temp: string, result: Result<Descriptor, StoreError>)
    | Done(digest: string, result: Result<Descriptor, StoreError>)

  // `used` holds every temporary name ever drawn: os.CreateTemp draws a fresh random one.
  datatype Shared = Shared(files: Files, used: set<string>, writers: map<WriterId, Phase>)

  datatype Step =
    | Begin(id: WriterId, digest: string, source: seq<Chunk>)
    | Check(id: WriterId)
    | Create(id: WriterId, temp: string)
    | Copy(id: WriterId)
    | ShortWrite(id: WriterId, kept: nat)
    | Cancel(id: WriterId)
    | Rename(id: WriterId)
    | RenameFails(id: WriterId)
    | Remove(id: WriterId)

  predicate Enabled(st: Shared, step: Step) {
    match step
    case Begin(id, _, _) => id !in st.writers
    case Check(id) => id in st.writers && st.writers[id].Checking?
    case Create(id, temp) => id in st.writers && st.writers[id].Creating? && Temporary(temp) && temp !in st.used
      && temp !in st.files
    case Copy(id) => id in st.writers && st.writers[id].Copying?
    case ShortWrite(id, kept) =>
      && id in st.writers && st.writers[id].Copying? && st.writers[id].source != [] && st.writers[id].source[0].Chunk?
      && kept <= |st.writers[id].source[0].data| && st.writers[id].temp in st.files
    case Cancel(id) => id in st.writers && (st.writers[id].Checking? || st.writers[id].Copying?)
    case Rename(id) => id in st.writers && st.writers[id].Renaming?
    case RenameFails(id) => id in st.writers && st.writers[id].Renaming?
    case Remove(id) => id in st.writers && st.writers[id].Removing?
  }

  function Moved(st: Shared, id: WriterId, phase: Phase): Shared { st.(writers := st.writers[id := phase]) }

  function Apply(h: Hash, st: Shared, step: Step): Shared
    requires Enabled(st, step)
  {
    match step
    case Begin(id, digest, source) => Moved(st, id, Checking(digest, source))
    case Check(id) =>
      var w := st.writers[id];
      (match ParseDigest(w.digest)
       case Failure(e) => Moved(st, id, Done(w.digest, Failure(e)))
       case Success(name) =>
         if name in st.files then Moved(st, id, Done(w.digest, Success(Descriptor(w.digest, |st.files[name]|))))
         else Moved(st, id, Creating(w.digest, w.source)))
    case Create(id, temp) =>
      var w := st.writers[id];
      Moved(Shared(st.files[temp := []], st.used + {temp}, st.writers), id, Copying(w.digest, w.source, temp, []))
    case Copy(id) =>
      var w := st.writers[id];
      if w.source == [] then
        (if h(w.hashed) == w.digest then Moved(st, id, Renaming(w.digest, w.temp, w.hashed))
         else Moved(st, id, Removing(w.digest, w.temp, Failure(DigestMismatch))))
      else
        (match w.source[0]
         case Broken => Moved(st, id, Removing(w.digest, w.temp, Failure(ReadFailed)))
         case Chunk(data) =>
           var written := if w.temp in st.files then st.files[w.temp := st.files[w.temp] + data] else st.files;
           Moved(st.(files := written), id, w.(source := w.source[1..], hashed := w.hashed + data)))
    case ShortWrite(id, kept) =>
      var w := st.writers[id];
      var written := st.files[w.temp] + w.source[0].data[..kept];
      Moved(st.(files := st.files[w.temp := written]), id, Removing(w.digest, w.temp, Failure(WriteFailed)))
    case Cancel(id) =>
      var w := st.writers[id];
      if w.Checking? then Moved(st, id, Done(w.digest, Failure(Canceled)))
      else Moved(st, id, Removing(w.digest, w.temp, Failure(Canceled)))
    case Rename(id) =>
      var w := st.writers[id];
      (match ParseDigest(w.digest)
       case Success(name) =>
         if w.temp in st.files then
           Moved(st.(files := (st.files - {w.temp})[name := st.files[w.temp]]), id,
                 Removing(w.digest, w.temp, Success(Descriptor(w.digest, |w.hashed|))))
         else Renamed(st, id, name)
       case Failure(e) => Moved(st, id, Removing(w.digest, w.temp, Failure(e))))
    case RenameFails(id) =>
      var w := st.writers[id];
      (match ParseDigest(w.digest)
       case Success(name) => Renamed(st, id, name)
       case Failure(e) => Moved(st, id, Removing(w.digest, w.temp, Failure(e))))
    case Remove(id) =>
      var w := st.writers[id];
      Moved(st.(files := st.files - {w.temp}), id, Done(w.digest, w.result))
  }

  // A rename that fails is still a success when another writer has finished the blob.
  function Renamed(st: Shared, id: WriterId, name: string): Shared
    requires id in st.writers && st.writers[id].Renaming?
  {
    var w := st.writers[id];
    Moved(st, id, Removing(w.digest, w.temp,
                           if name in st.files
                             then Success(Descriptor(w.digest, |w.hashed|)) else Failure(NotFinalized)))
  }

  /** A call whose rename fails has succeeded exactly if another has finished the blob by then. */
  lemma FailedRenameSettles(h: Hash, st: Shared, id: WriterId)
    requires Enabled(st, RenameFails(id)) && ParseDigest(st.writers[id].digest).Success?
    ensures var w, after := st.writers[id], Apply(h, st, RenameFails(id));
            && after.files == st.files && after.writers[id].Removing?
            && after.writers[id].result == if Open(st.files, w.digest).Some?
               then Success(Descriptor(w.digest, |w.hashed|))
                                           else Failure(NotFinalized)
  {}

  predicate HoldsTemp(w: Phase) { w.Copying? || w.Renaming? || w.Removing? }

  predicate WriterSound(h: Hash, st: Shared, w: Phase) {
    && (HoldsTemp(w) ==> Temporary(w.temp) && w.temp in st.used)
    && (w.Creating? || HoldsTemp(w) ==> ParseDigest(w.digest).Success?)
    && (w.Copying? || w.Renaming? ==> w.temp in st.files && st.files[w.temp] == w.hashed)
    && (w.Renaming? ==> h(w.hashed) == w.digest)
    && ((w.Removing? || w.Done?) && w.result.Success? ==> Open(st.files, w.digest).Some?)
  }

  ghost predicate Consistent(h: Hash, st: Shared) {
    && Addressed(h, st.files)
    && (forall id :: id in st.writers ==> WriterSound(h, st, st.writers[id]))
    && (forall a, b ::
          a in st.writers && b in st.writers && a != b && HoldsTemp(st.writers[a]) && HoldsTemp(st.writers[b]) ==>
            st.writers[a].temp != st.writers[b].temp)
    && (forall name :: name in st.files && !BlobName(name) ==>
                       exists id :: id in st.writers && HoldsTemp(st.writers[id]) && st.writers[id].temp == name)
  }

  predicate KeepsBlobs(before: Files, after: Files) {
    forall name | name in before && BlobName(name) :: name in after
  }

  lemma OpenIsKept(before: Files, after: Files, digest: string)
    requires KeepsBlobs(before, after) && Open(before, digest).Some?
    ensures Open(after, digest).Some?
  {
    ParseDigestIff(digest, ParseDigest(digest).value);
  }

  function TempOf(st: Shared, id: WriterId): Option<string> {
    if id in st.writers && HoldsTemp(st.writers[id]) then Some(st.writers[id].temp) else None
  }

  // The change writer `id` made touches blobs, its own temporary and its own phase only.
  ghost predicate OwnChange(st: Shared, after: Shared, id: WriterId) {
    && id in after.writers && after.writers == st.writers[id := after.writers[id]]
    && st.used <= after.used && KeepsBlobs(st.files, after.files)
    && (TempOf(after, id).Some? ==> TempOf(after, id) == TempOf(st, id) || TempOf(after, id).value !in st.used)
    && (forall name :: !BlobName(name) && TempOf(st, id) != Some(name) && TempOf(after, id) != Some(name) ==>
          (name in st.files <==> name in after.files) && (name in st.files ==> st.files[name] == after.files[name]))
    && (forall name :: !BlobName(name) && TempOf(st, id) == Some(name) && name in after.files ==>
          TempOf(after, id) == Some(name))
  }

  lemma OwnChangeIsSafe(h: Hash, st: Shared, after: Shared, id: WriterId)
    requires Consistent(h, st) && OwnChange(st, after, id)
    requires Addressed(h, after.files) && WriterSound(h, after, after.writers[id])
    ensures Consistent(h, after)
  {
    forall a | a in after.writers ensures WriterSound(h, after, after.writers[a]) {
      if a != id {
        var w := st.writers[a];
        assert WriterSound(h, st, w) && after.writers[a] == w;
        if HoldsTemp(w) {
          TemporaryIsNoBlob(w.temp);
          assert TempOf(st, id) != Some(w.temp);
        }
        if (w.Removing? || w.Done?) && w.result.Success? {
          OpenIsKept(st.files, after.files, w.digest);
        }
      }
    }
    forall name | name in after.files && !BlobName(name)
      ensures exists a :: a in after.writers && HoldsTemp(after.writers[a]) && after.writers[a].temp == name
    {
      if TempOf(after, id) != Some(name) {
        assert name in st.files;
        var a :| a in st.writers && HoldsTemp(st.writers[a]) && st.writers[a].temp == name;
        assert a != id && after.writers[a] == st.writers[a];
      }
    }
  }

  predicate TouchesFiles(step: Step) { step.Create? || step.Copy? || step.ShortWrite? }

  lemma WriteIsOwnChange(h: Hash, st: Shared, step: Step)
    requires Enabled(st, step) && Consistent(h, st) && TouchesFiles(step)
    ensures OwnChange(st, Apply(h, st, step), step.id)
  {
    if step.Create? {
      TemporaryIsNoBlob(step.temp);
    } else {
      TemporaryIsNoBlob(st.writers[step.id].temp);
    }
  }

  lemma RenameIsOwnChange(h: Hash, st: Shared, step: Step)
    requires Enabled(st, step) && Consistent(h, st) && step.Rename?
    ensures OwnChange(st, Apply(h, st, step), step.id)
  {
    var w := st.writers[step.id];
    TemporaryIsNoBlob(w.temp);
    ParseDigestIff(w.digest, ParseDigest(w.digest).value);
  }

  lemma RemoveIsOwnChange(h: Hash, st: Shared, step: Step)
    requires Enabled(st, step) && Consistent(h, st) && step.Remove?
    ensures OwnChange(st, Apply(h, st, step), step.id)
  {
    TemporaryIsNoBlob(st.writers[step.id].temp);
  }

  lemma MoveIsOwnChange(h: Hash, st: Shared, step: Step)
    requires Enabled(st, step) && Consistent(h, st) && !TouchesFiles(step) && !step.Rename? && !step.Remove?
    ensures OwnChange(st, Apply(h, st, step), step.id)
  {}

  lemma WriteIsSound(h: Hash, st: Shared, step: Step)
    requires Enabled(st, step) && Consistent(h, st) && TouchesFiles(step)
    ensures var after := Apply(h, st, step);
            Addressed(h, after.files) && step.id in after.writers && WriterSound(h, after, after.writers[step.id])
  {
    assert WriterSound(h, st, st.writers[step.id]);
    TemporaryIsNoBlob(if step.Create? then step.temp else st.writers[step.id].temp);
  }

  lemma MoveIsSound(h: Hash, st: Shared, step: Step)
    requires Enabled(st, step) && Consistent(h, st) && !TouchesFiles(step)
    ensures var after := Apply(h, st, step);
            Addressed(h, after.files) && step.id in after.writers && WriterSound(h, after, after.writers[step.id])
  {
    if step.id in st.writers {
      var w := st.writers[step.id];
      assert WriterSound(h, st, w);
      if HoldsTemp(w) { TemporaryIsNoBlob(w.temp); }
      if ParseDigest(w.digest).Success? { ParseDigestIff(w.digest, ParseDigest(w.digest).value); }
    }
  }

  lemma StepIsSafe(h: Hash, st: Shared, step: Step)
    requires Enabled(st, step) && Consistent(h, st)
    ensures Consistent(h, Apply(h, st, step)) && KeepsBlobs(st.files, Apply(h, st, step).files)
  {
    if TouchesFiles(step) {
      WriteIsOwnChange(h, st, step);
      WriteIsSound(h, st, step);
    } else {
      if step.Rename? {
        RenameIsOwnChange(h, st, step);
      } else if step.Remove? {
        RemoveIsOwnChange(h, st, step);
      } else {
        MoveIsOwnChange(h, st, step);
      }
      MoveIsSound(h, st, step);
    }
    OwnChangeIsSafe(h, st, Apply(h, st, step), step.id);
  }

  ghost predicate Executes(h: Hash, st: Shared, steps: seq<Step>, end: Shared)
    decreases |steps|
  {
    if steps == [] then st == end
    else Enabled(st, steps[0]) && Executes(h, Apply(h, st, steps[0]), steps[1..], end)
  }

  lemma {:induction false} RunIsSafe(h: Hash, st: Shared, steps: seq<Step>, end: Shared)
    requires Consistent(h, st) && Executes(h, st, steps, end)
    ensures Consistent(h, end) && KeepsBlobs(st.files, end.files)
    decreases |steps|
  {
    if steps != [] {
      StepIsSafe(h, st, steps[0]);
      RunIsSafe(h, Apply(h, st, steps[0]), steps[1..], end);
    }
  }

  const EMPTY := Shared(map[], {}, map[])

  /** However PutBlob calls interleave: a visible blob hashes to its name, a digest that is visible or
      reported stored stays visible, and every other file is the temporary of a call still running. */
  lemma ConcurrentPutsAreSafe(h: Hash, before: seq<Step>, mid: Shared, after: seq<Step>, end: Shared)
    requires Executes(h, EMPTY, before, mid) && Executes(h, mid, after, end)
    ensures forall d :: Open(end.files, d).Some? ==> h(Open(end.files, d).value) == d
    ensures forall d :: Open(mid.files, d).Some? ==> Open(end.files, d).Some?
    ensures forall id :: id in mid.writers && mid.writers[id].Done? && mid.writers[id].result.Success? ==>
                         Open(end.files, mid.writers[id].digest).Some?
    ensures (forall id :: id in end.writers ==> end.writers[id].Done?) ==> forall name :: name in end.files ==>
              BlobName(name)
  {
    RunIsSafe(h, EMPTY, before, mid);
    RunIsSafe(h, mid, after, end);
    forall d ensures Open(mid.files, d).Some? ==> Open(end.files, d).Some?
             ensures Open(end.files, d).Some? ==> h(Open(end.files, d).value) == d {
      if ParseDigest(d).Success? {
        ParseDigestIff(d, ParseDigest(d).value);
      }
    }
  }

  // ---------------------------------------------------------------- one writer by itself

  lemma {:induction false} RunsJoin(h: Hash, a: Shared, xs: seq<Step>, b: Shared, ys: seq<Step>, c: Shared)
    requires Executes(h, a, xs, b) && Executes(h, b, ys, c)
    ensures Executes(h, a, xs + ys, c)
    decreases |xs|
  {
    if xs == [] {
      assert xs + ys == ys;
    } else {
      RunsJoin(h, Apply(h, a, xs[0]), xs[1..], b, ys, c);
      assert (xs + ys)[0] == xs[0] && (xs + ys)[1..] == xs[1..] + ys;
    }
  }

  lemma ThenStep(h: Hash, a: Shared, xs: seq<Step>, b: Shared, step: Step) returns (ys: seq<Step>, c: Shared)
    requires Executes(h, a, xs, b) && Enabled(b, step)
    ensures Executes(h, a, ys, c) && c == Apply(h, b, step)
  {
    ys, c := xs + [step], Apply(h, b, step);
    assert [step][1..] == [] && Executes(h, b, [step], c);
    RunsJoin(h, a, xs, b, [step], c);
  }

  // The files with a temporary file that holds what was copied so far.
  predicate HasCopied(st: Shared, files: Files, id: WriterId, digest: string, source: seq<Chunk>, temp: string,
                      hashed: Bytes) {
    && id in st.writers && st.writers[id] == Copying(digest, source, temp, hashed)
    && temp !in files && st.files == files[temp := hashed]
  }

  // How copying ends: the temporary file is about to be renamed, or to be removed.
  predicate CopyEnds(h: Hash, st: Shared, files: Files, id: WriterId, digest: string, temp: string,
                     all: Option<Bytes>) {
    && id in st.writers && temp !in files
    && if all.Some? && h(all.value) == digest
       then st.writers[id] == Renaming(digest, temp, all.value) && st.files == files[temp := all.value]
       else
         && st.writers[id] == Removing(digest, temp, Failure(if all.Some? then DigestMismatch else ReadFailed))
         && st.files - {temp} == files
  }

  lemma {:induction false} CopiesAll(h: Hash, st: Shared, files: Files, id: WriterId, digest: string,
                                     source: seq<Chunk>, temp: string, hashed: Bytes)
    returns (steps: seq<Step>, end: Shared)
    requires HasCopied(st, files, id, digest, source, temp, hashed)
    ensures Executes(h, st, steps, end) && CopyEnds(h, end, files, id, digest, temp, Prefixed(hashed, ReadAll(source)))
    decreases |source|
  {
    var next := Apply(h, st, Copy(id));
    steps, end := ThenStep(h, st, [], st, Copy(id));
    PrefixedTwice(hashed, [], None);
    if source == [] {
      assert st.files - {temp} == files;
    } else if source[0].Chunk? {
      PrefixedTwice(hashed, source[0].data, ReadAll(source[1..]));
      var more, last := CopiesAll(h, next, files, id, digest, source[1..], temp, hashed + source[0].data);
      RunsJoin(h, st, steps, next, more, last);
      steps, end := steps + more, last;
    } else {
      assert st.files - {temp} == files;
    }
  }

  lemma Finishes(h: Hash, st: Shared, files: Files, id: WriterId, digest: string, temp: string, all: Option<Bytes>)
    returns (steps: seq<Step>, end: Shared)
    requires CopyEnds(h, st, files, id, digest, temp, all) && Temporary(temp)
    requires ParseDigest(digest).Success? && ParseDigest(digest).value !in files
    ensures Executes(h, st, steps, end) && id in end.writers && end.writers[id].Done?
    ensures if all.Some? && h(all.value) == digest then
              && end.files == files[ParseDigest(digest).value := all.value]
              && end.writers[id].result == Success(Descriptor(digest, |all.value|))
            else
              && end.files == files
              && end.writers[id].result == Failure(if all.Some? then DigestMismatch else ReadFailed)
  {
    var name := ParseDigest(digest).value;
    ParseDigestIff(digest, name);
    TemporaryIsNoBlob(temp);
    steps, end := [], st;
    if st.writers[id].Renaming? {
      steps, end := ThenStep(h, st, steps, end, Rename(id));
      assert (st.files - {temp}) == files;
    }
    steps, end := ThenStep(h, st, steps, end, Remove(id));
    assert all.Some? && h(all.value) == digest ==> end.files == files[name := all.value];
  }

  /** A call that nobody disturbs can always finish, and does then what a put does. */
  lemma LoneWriterPuts(h: Hash, st: Shared, id: WriterId, digest: string, source: seq<Chunk>, temp: string)
    returns (steps: seq<Step>, end: Shared)
    requires id !in st.writers && Temporary(temp) && temp !in st.used && temp !in st.files
    ensures Executes(h, st, steps, end) && id in end.writers && end.writers[id].Done?
    ensures (end.files, end.writers[id].result) == Put(h, st.files, digest, source)
  {
    steps, end := ThenStep(h, st, [], st, Begin(id, digest, source));
    steps, end := ThenStep(h, st, steps, end, Check(id));
    if end.writers[id].Creating? {
      steps, end := ThenStep(h, st, steps, end, Create(id, temp));
      var copying := end;
      PrefixedTwice([], [], ReadAll(source));
      var copies, copied := CopiesAll(h, copying, st.files, id, digest, source, temp, []);
      RunsJoin(h, st, steps, copying, copies, copied);
      var rest, done := Finishes(h, copied, st.files, id, digest, temp, ReadAll(source));
      RunsJoin(h, st, steps + copies, copied, rest, done);
      steps, end := steps + copies + rest, done;
    }
  }
}
