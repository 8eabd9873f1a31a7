// internal/content/store.go: the content-addressed file store.
//
// SHA-256 is a parameter: a function from contents to digests, of which nothing is assumed.
// The files of the blobs/sha256 directory are a map from name to content.

module Content {
  import opened Text
  import opened Ordering

  type Bytes = seq<bv8>
  type Hash = Bytes -> string
  type Files = map<string, Bytes>

  datatype StoreError = UnsupportedDigest | DigestMismatch | ReadFailed | WriteFailed | Canceled | NotFinalized

  datatype Descriptor = Descriptor(digest: string, size: nat)

  // What one Read of the source yields; the end of the sequence is io.EOF.
  datatype Chunk = Chunk(data: Bytes) | Broken

  predicate HexDigit(c: char) { '0' <= c <= '9' || 'a' <= c <= 'f' || 'A' <= c <= 'F' }

  predicate BlobName(name: string) { |name| == 64 && forall c | c in name :: HexDigit(c) }

  function ColonAt(s: string): (i: nat)
    ensures i <= |s| && (i < |s| ==> s[i] == ':') && ':' !in s[..i]
  {
    if s == "" then 0 else if s[0] == ':' then 0 else 1 + ColonAt(s[1..])
  }

  /** parseDigest: the file name of a digest. */
  function ParseDigest(digest: string): Result<string, StoreError> {
    var i := ColonAt(digest);
    if i == |digest| || i == 0 || i + 1 == |digest| then Failure(UnsupportedDigest)
    else if digest[..i] != "sha256" then Failure(UnsupportedDigest)
    else if BlobName(digest[i + 1..]) then Success(digest[i + 1..])
    else Failure(UnsupportedDigest)
  }

  lemma ParseDigestIff(digest: string, name: string)
    ensures ParseDigest(digest) == Success(name) <==> digest == "sha256:" + name && BlobName(name)
  {
    var i := ColonAt(digest);
    if digest == "sha256:" + name && BlobName(name) {
      assert digest[6] == ':' && digest[..6] == "sha256";
      assert i <= 6;
      assert digest[i] in "sha256:";
    }
    if ParseDigest(digest) == Success(name) {
      assert digest == digest[..i] + [':'] + digest[i + 1..];
    }
  }

  const HEX := "0123456789abcdefABCDEF"

  /** A blob's name is 64 hexadecimal digits, of either case. */
  lemma BlobNameIff(name: string)
    ensures BlobName(name) <==> |name| == 64 && forall c :: c in name ==> c in HEX
  {
    forall c: char ensures HexDigit(c) <==> c in HEX {
      HexDigitIff(c);
    }
  }

  lemma HexDigitIff(c: char)
    ensures HexDigit(c) <==> c in HEX
  {
    assert HEX[..10] == "0123456789" && HEX[10..16] == "abcdef" && HEX[16..] == "ABCDEF";
    if '0' <= c <= '9' {
      assert HEX[c as int - '0' as int] == c;
    } else if 'a' <= c <= 'f' {
      assert HEX[10 + c as int - 'a' as int] == c;
    } else if 'A' <= c <= 'F' {
      assert HEX[16 + c as int - 'A' as int] == c;
    }
  }

  // ---------------------------------------------------------------- one writer at a time

  /** Everything the source yields, or None when a read breaks first. */
  function ReadAll(source: seq<Chunk>): Option<Bytes> {
    if source == [] then Some([])
    else
      match source[0]
      case Broken => None
      case Chunk(data) => Prefixed(data, ReadAll(source[1..]))
  }

  function Prefixed(data: Bytes, rest: Option<Bytes>): Option<Bytes> {
    match rest
    case None => None
    case Some(content) => Some(data + content)
  }

  lemma PrefixedTwice(a: Bytes, b: Bytes, rest: Option<Bytes>)
    ensures Prefixed([], rest) == rest
    ensures Prefixed(a, Some([])) == Some(a)
    ensures Prefixed(a, Prefixed(b, rest)) == Prefixed(a + b, rest)
  {
    assert a + [] == a;
    if rest.Some? {
      assert [] + rest.value == rest.value;
      assert a + (b + rest.value) == (a + b) + rest.value;
    }
  }

  function Put(h: Hash, files: Files, digest: string, source: seq<Chunk>): (Files, Result<Descriptor, StoreError>) {
    match ParseDigest(digest)
    case Failure(e) => (files, Failure(e))
    case Success(name) =>
      if name in files then (files, Success(Descriptor(digest, |files[name]|)))
      else
        match ReadAll(source)
        case None => (files, Failure(ReadFailed))
        case Some(content) =>
          if h(content) == digest then (files[name := content], Success(Descriptor(digest, |content|)))
          else (files, Failure(DigestMismatch))
  }

  function Open(files: Files, digest: string): Option<Bytes> {
    match ParseDigest(digest)
    case Failure(_) => None
    case Success(name) => if name in files then Some(files[name]) else None
  }

  /** Every visible blob hashes to its name. */
  predicate Addressed(h: Hash, files: Files) {
    forall name | name in files && BlobName(name) :: h(files[name]) == "sha256:" + name
  }

  predicate Temporary(name: string) { ".upload-" <= name }

  lemma TemporaryIsNoBlob(name: string)
    requires Temporary(name)
    ensures !BlobName(name)
  {
    assert name[0] == '.' && name[0] in name;
  }

  /** A Put adds the blob it was asked for or changes nothing, and never replaces a blob. */
  lemma PutAddsOnly(h: Hash, files: Files, digest: string, source: seq<Chunk>)
    requires Addressed(h, files)
    ensures var (after, r) := Put(h, files, digest, source);
            && Addressed(h, after)
            && (forall name :: name in files ==> name in after && after[name] == files[name])
            && (forall d :: Open(files, d).Some? ==> Open(after, d) == Open(files, d))
            && (r.Success? ==> Open(after, digest).Some? && h(Open(after, digest).value) == digest
                               && r.value == Descriptor(digest, |Open(after, digest).value|))
            && (r.Failure? ==> after == files)
  {
    if ParseDigest(digest).Success? {
      ParseDigestIff(digest, ParseDigest(digest).value);
    }
  }

  /** A source is read whole unless a read breaks, piece after piece. */
  lemma {:induction false} ReadAllJoins(a: seq<Chunk>, b: seq<Chunk>)
    ensures ReadAll(a + b) ==
            if ReadAll(a).Some? && ReadAll(b).Some? then Some(ReadAll(a).value + ReadAll(b).value) else None
    ensures ReadAll(a).Some? <==> Broken !in a
    ensures |a| == 1 && a[0].Chunk? ==> ReadAll(a) == Some(a[0].data)
  {
    if a == [] {
      assert a + b == b;
      assert ReadAll(b).Some? ==> [] + ReadAll(b).value == ReadAll(b).value;
    } else {
      assert (a + b)[0] == a[0] && (a + b)[1..] == a[1..] + b && a == [a[0]] + a[1..];
      ReadAllJoins(a[1..], b);
      if a[0].Chunk? && ReadAll(a[1..]).Some? && ReadAll(b).Some? {
        assert a[0].data + (ReadAll(a[1..]).value + ReadAll(b).value) ==
               (a[0].data + ReadAll(a[1..]).value) + ReadAll(b).value;
      }
      assert a[0].Chunk? ==> a[0].data + [] == a[0].data;
    }
  }

  /** A put succeeds exactly for a supported digest that is held already, whatever the source yields, or whose source
      reads whole and hashes to it; what it adds is what it read, under that digest and no other. */
  lemma PutIff(h: Hash, files: Files, name: string, source: seq<Chunk>)
    ensures var digest := "sha256:" + name;
            var (after, r) := Put(h, files, digest, source);
            && (r == Failure(UnsupportedDigest) <==> !BlobName(name))
            && (BlobName(name) && name in files ==> r == Success(Descriptor(digest, |files[name]|)) && after == files)
            && (BlobName(name) && name !in files ==>
                  && (r == Failure(ReadFailed) <==> Broken in source)
                  && (r.Success? <==> ReadAll(source).Some? && h(ReadAll(source).value) == digest)
                  && (r.Success? ==> after == files[name := ReadAll(source).value]))
            && (r.Failure? ==> r.error in {UnsupportedDigest, ReadFailed, DigestMismatch} && after == files)
  {
    ParseDigestIff("sha256:" + name, name);
    ReadAllJoins(source, []);
    if ParseDigest("sha256:" + name).Success? {
      var parsed := ParseDigest("sha256:" + name).value;
      ParseDigestIff("sha256:" + name, parsed);
      assert ("sha256:" + name)[7..] == name && ("sha256:" + parsed)[7..] == parsed;
    }
  }

  class FileStore {
    const hash: Hash
    var files: Files

    constructor (hash: Hash)
      ensures this.hash == hash && files == map[]
    {
      this.hash := hash;
      files := map[];
    }

    // The temporary file is written chunk by chunk, then renamed or removed.
    method PutBlob(digest: string, source: seq<Chunk>, temp: string) returns (r: Result<Descriptor, StoreError>)
      requires Temporary(temp) && temp !in files
      modifies this
      ensures (files, r) == Put(hash, old(files), digest, source)
    {
      var name: string;
      match ParseDigest(digest) {
        case Failure(e) => return Failure(e);
        case Success(n) => name := n;
      }
      if name in files {
        return Success(Descriptor(digest, |files[name]|));
      }
      TemporaryIsNoBlob(temp);
      ParseDigestIff(digest, name);
      files := files[temp := []];
      var hashed: Bytes := [];
      var i := 0;
      assert source[0..] == source;
      PrefixedTwice([], [], ReadAll(source));
      while i < |source|
        invariant 0 <= i <= |source|
        invariant files == old(files)[temp := hashed]
        invariant ReadAll(source) == Prefixed(hashed, ReadAll(source[i..]))
      {
        assert source[i..][1..] == source[i + 1..];
        match source[i] {
          case Broken =>
            files := files - {temp};
            assert files == old(files);
            return Failure(ReadFailed);
          case Chunk(data) =>
            PrefixedTwice(hashed, data, ReadAll(source[i + 1..]));
            files := files[temp := files[temp] + data];
            hashed := hashed + data;
        }
        i := i + 1;
      }
      PrefixedTwice(hashed, [], None);
      if hash(hashed) != digest {
        files := files - {temp};
        assert files == old(files);
        return Failure(DigestMismatch);
      }
      files := (files - {temp})[name := files[temp]];
      assert files == old(files)[name := hashed];
      r := Success(Descriptor(digest, |hashed|));
    }

    // `entries` is what os.ReadDir lists: every file once, in some order.
    method ListBlobs(entries: seq<string>) returns (blobs: seq<Descriptor>)
      requires forall name :: name in entries <==> name in files
      requires forall i, j :: 0 <= i < j < |entries| ==> entries[i] != entries[j]
      ensures forall d :: d in blobs <==> Open(files, d.digest).Some? && d.size == |Open(files, d.digest).value|
      ensures forall i, j :: 0 <= i < j < |blobs| ==>
                Below(blobs[i].digest, blobs[j].digest) && blobs[i].digest != blobs[j].digest
    {
      var found: seq<Descriptor> := [];
      for i := 0 to |entries|
        invariant forall d :: d in found <==> exists k :: 0 <= k < i && Listed(entries[k], files, d)
        invariant forall d :: d in found ==> d.digest[7..] in entries[..i]
        invariant forall k, l :: 0 <= k < l < |found| ==> found[k].digest != found[l].digest
      {
        var digest := "sha256:" + entries[i];
        assert digest[7..] == entries[i];
        ParseDigestIff(digest, entries[i]);
        if ParseDigest(digest).Success? {
          var d := Descriptor(digest, |files[entries[i]]|);
          assert Listed(entries[i], files, d);
          ParseDigestIff(digest, ParseDigest(digest).value);
          found := found + [d];
        }
        assert entries[..i + 1] == entries[..i] + [entries[i]];
      }
      forall d ensures d in found <==> Open(files, d.digest).Some? && d.size == |Open(files, d.digest).value| {
        ListedIffOpen(entries, files, d);
      }
      SortedByDigest(found);
      blobs := StableSort(found, BY_DIGEST);
    }
  }

  lemma ListedIffOpen(entries: seq<string>, files: Files, d: Descriptor)
    requires forall name :: name in entries <==> name in files
    ensures (exists k :: 0 <= k < |entries| && Listed(entries[k], files, d)) <==>
            Open(files, d.digest).Some? && d.size == |Open(files, d.digest).value|
  {
    if Open(files, d.digest).Some? {
      ParseDigestIff(d.digest, ParseDigest(d.digest).value);
      var k :| 0 <= k < |entries| && entries[k] == ParseDigest(d.digest).value;
      assert d.size == |Open(files, d.digest).value| ==> Listed(entries[k], files, d);
    }
    if k :| 0 <= k < |entries| && Listed(entries[k], files, d) {
      ParseDigestIff(d.digest, entries[k]);
    }
  }

  lemma SortedByDigest(found: seq<Descriptor>)
    requires forall k, l :: 0 <= k < l < |found| ==> found[k].digest != found[l].digest
    ensures var blobs := StableSort(found, BY_DIGEST);
            && (forall d :: d in blobs <==> d in found)
            && forall i, j :: 0 <= i < j < |blobs| ==>
                 Below(blobs[i].digest, blobs[j].digest) && blobs[i].digest != blobs[j].digest
  {
    var blobs := StableSort(found, BY_DIGEST);
    BelowIsTotal();
    StableSortSorts(found, BY_DIGEST);
    SameElements(blobs, found);
    forall i, j | 0 <= i < j < |blobs| ensures Below(blobs[i].digest, blobs[j].digest)
      && blobs[i].digest != blobs[j].digest {
      assert BY_DIGEST(blobs[i], blobs[j]);
      if blobs[i].digest == blobs[j].digest {
        assert blobs[i] in found && blobs[j] in found;
        RepeatedIsCounted(blobs, i, j);
        var k, l := CountedIsRepeated(found, blobs[i]);
      }
    }
  }

  predicate Listed(name: string, files: Files, d: Descriptor)
  {
    BlobName(name) && name in files && d == Descriptor("sha256:" + name, |files[name]|)
  }

  // Byte order of strings, which for digests is the order of their characters.
  predicate Below(a: string, b: string) {
    a == "" || (b != "" && (a[0] < b[0] || (a[0] == b[0] && Below(a[1..], b[1..]))))
  }

  const BY_DIGEST: (Descriptor, Descriptor) -> bool := (a: Descriptor, b: Descriptor) => Below(a.digest, b.digest)

  lemma BelowTransitive(a: string, b: string, c: string)
    requires Below(a, b) && Below(b, c)
    ensures Below(a, c)
  {}

  lemma BelowConnex(a: string, b: string)
    ensures Below(a, b) || Below(b, a)
  {}

  lemma BelowIsTotal()
    ensures TotalPreorder(BY_DIGEST)
  {
    forall x: Descriptor, y: Descriptor ensures BY_DIGEST(x, y) || BY_DIGEST(y, x) {
      BelowConnex(x.digest, y.digest);
    }
    forall x: Descriptor, y: Descriptor, z: Descriptor | BY_DIGEST(x, y) && BY_DIGEST(y, z) ensures BY_DIGEST(x, z) {
      BelowTransitive(x.digest, y.digest, z.digest);
    }
  }
}
