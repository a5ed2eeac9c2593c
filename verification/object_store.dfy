/** The content-addressed LFS object store on the local file system. */
module ObjectStore {
  import opened Prelude
  import opened Text

  // ----- layout -----

  /** 64 hex digits, of either case. */
  predicate ValidOid(oid: string) {
    |oid| == 64 && forall i :: 0 <= i < |oid| ==> IsHexDigit(LowerChar(oid[i]))
  }

  function ObjectPath(oid: string): string
    requires |oid| >= 4
  {
    var lower := Lower(oid);
    lower[..2] + "/" + lower[2..4] + "/" + lower
  }

  function TmpPath(oid: string): string
    requires |oid| >= 4
  {
    ObjectPath(oid) + ".tmp"
  }

  lemma LowerValid(oid: string)
    requires ValidOid(oid)
    ensures IsOid(Lower(oid))
    ensures IsOid(oid) <==> Lower(oid) == oid
  {
    assert IsOid(oid) ==> forall i :: 0 <= i < |oid| ==> LowerChar(oid[i]) == oid[i];
  }

  /** Two names meet on disk only when the oids agree up to case; an object never meets a temporary file. */
  lemma PathsCollide(oid1: string, oid2: string)
    requires ValidOid(oid1) && ValidOid(oid2)
    ensures ObjectPath(oid1) == ObjectPath(oid2) <==> Lower(oid1) == Lower(oid2)
    ensures TmpPath(oid1) == TmpPath(oid2) <==> Lower(oid1) == Lower(oid2)
    ensures ObjectPath(oid1) != TmpPath(oid2)
  {
    var p1, p2 := ObjectPath(oid1), ObjectPath(oid2);
    assert p1[6..] == Lower(oid1) && p2[6..] == Lower(oid2);
    assert TmpPath(oid1)[..70] == p1 && TmpPath(oid2)[..70] == p2;
    assert |p1| == 70 && |TmpPath(oid2)| == 74;
  }

  /** The two names an object can have a file under, and the strings they are on disk. */
  datatype Path = Final(key: Oid) | Temporary(key: Oid)

  function OnDisk(p: Path): string {
    match p
    case Final(key) => ObjectPath(key)
    case Temporary(key) => TmpPath(key)
  }

  lemma OnDiskInjective(p: Path, q: Path)
    requires OnDisk(p) == OnDisk(q)
    ensures p == q
  {
    LowerValid(p.key);
    LowerValid(q.key);
    PathsCollide(p.key, q.key);
    PathsCollide(q.key, p.key);
  }

  // ----- one upload at a time -----

  datatype StoreError = InvalidOid | NegativeSize | AlreadyExists | BodyFailed | SizeMismatch | HashMismatch

  /** Every file at an object path is named after the sha256 of its content. */
  ghost predicate SoundFiles(sha256: Bytes -> Oid, files: map<string, Bytes>) {
    forall oid: Oid :: ObjectPath(oid) in files ==> sha256(files[ObjectPath(oid)]) == oid
  }

  class LocalObjectStore {
    const sha256: Bytes -> Oid
    var files: map<string, Bytes>

    constructor (sha256: Bytes -> Oid)
      ensures this.sha256 == sha256 && files == map[]
    {
      this.sha256, files := sha256, map[];
    }

    predicate HasObject(oid: string)
      reads this
      requires |oid| >= 4
    {
      ObjectPath(oid) in files
    }

    /** The chunks go to the file, the hash and the count alike. */
    method StreamTo(tmp: string, body: seq<Bytes>) returns (hashed: Bytes, written: nat)
      modifies `files
      ensures hashed == Concat(body) && written == |hashed|
      ensures files == old(files)[tmp := hashed]
    {
      hashed, written := [], 0;
      files := files[tmp := []];
      for i := 0 to |body|
        invariant hashed == Concat(body[..i]) && written == |hashed|
        invariant files == old(files)[tmp := hashed]
      {
        assert body[..i + 1][..i] == body[..i];
        var chunk := body[i];
        if chunk != [] {
          files := files[tmp := files[tmp] + chunk];
          hashed := hashed + chunk;
          written := written + |chunk|;
        }
      }
      assert body[..|body|] == body;
    }

    /**
     Streams the body (its chunks, then possibly an error) into a temporary file and renames it. Exactly the uploads
     whose body is complete, of the announced size and of the announced hash, into a free slot, succeed; every other
     call leaves all objects alone.
     */
    method WriteObject(oid: string, body: seq<Bytes>, bodyFails: bool, expectedSize: int)
      returns (r: Result<nat, StoreError>)
      modifies this`files
      ensures r.Ok? <==> && ValidOid(oid) && ObjectPath(oid) !in old(files) && !bodyFails
                         && |Concat(body)| == expectedSize && sha256(Concat(body)) == oid
      ensures r.Ok? ==> && r.value == expectedSize
                        && files == old(files)[ObjectPath(oid) := Concat(body)] - {TmpPath(oid)}
      ensures r.Err? ==> files == old(files) || (ValidOid(oid) && files == old(files) - {TmpPath(oid)})
      ensures r == Err(BodyFailed) <==> && ValidOid(oid) && expectedSize >= 0
                                        && ObjectPath(oid) !in old(files) && bodyFails
    {
      if !ValidOid(oid) {
        return Err(InvalidOid);
      }
      if expectedSize < 0 {
        return Err(NegativeSize);
      }
      var target, tmp := ObjectPath(oid), TmpPath(oid);
      PathsCollide(oid, oid);
      if target in files {
        return Err(AlreadyExists);
      }
      if tmp in files {
        files := files - {tmp};
      }
      var hashed, written := StreamTo(tmp, body);
      if bodyFails {
        files := files - {tmp};
        return Err(BodyFailed);
      }
      if written != expectedSize {
        files := files - {tmp};
        return Err(SizeMismatch);
      }
      if sha256(hashed) != oid {
        files := files - {tmp};
        return Err(HashMismatch);
      }
      files := files[target := files[tmp]] - {tmp};
      return Ok(written);
    }
  }

  /** An upload keeps the store sound: what it adds is named after its own hash. */
  lemma WriteKeepsSound(sha256: Bytes -> Oid, files: map<string, Bytes>, oid: Oid, content: Bytes)
    requires SoundFiles(sha256, files) && sha256(content) == oid
    ensures SoundFiles(sha256, files[ObjectPath(oid) := content] - {TmpPath(oid)})
    ensures SoundFiles(sha256, files - {TmpPath(oid)})
  {
    forall other: Oid ensures ObjectPath(other) == ObjectPath(oid) ==> other == oid {
      LowerValid(oid);
      LowerValid(other);
      PathsCollide(oid, other);
    }
  }
}
