/** The in-memory manifest store (backend/internal/manifest/store.go) and the hash a reader
    finds in a stored record. Decoding and hashing are parameters. */
module ManifestMemory {
  import opened Outcomes
  import opened Texts
  import opened Manifests

  predicate IsHex(c: char) {
    '0' <= c <= '9' || 'a' <= c <= 'f' || 'A' <= c <= 'F'
  }

  predicate IsUuidBody(s: string) {
    |s| == 36 && forall i | 0 <= i < 36 :: if i in {8, 13, 18, 23} then s[i] == '-' else IsHex(s[i])
  }

  /** The four forms uuid.Parse accepts; the characters around a bracketed one are not
      looked at. */
  predicate IsRunId(s: string) {
    || IsUuidBody(s)
    || (|s| == 38 && IsUuidBody(s[1..37]))
    || (|s| == 45 && Lower(s[..9]) == "urn:uuid:" && IsUuidBody(s[9..]))
    || (|s| == 32 && forall c | c in s :: IsHex(c))
  }

  function MapKey(run: string, key: string): string {
    run + ":" + key
  }

  lemma {:induction false} RunIdSize(s: string)
    requires IsRunId(s)
    ensures |s| in {32, 36, 38, 45}
    ensures forall i | i in {32, 36, 38} && i < |s| :: s[i] != ':'
  {
    if |s| == 38 {
      assert s[32] == s[1..37][31] && s[36] == s[1..37][35];
    } else if |s| == 45 {
      assert s[32] == s[9..][23] && s[36] == s[9..][27] && s[38] == s[9..][29];
    } else if |s| == 36 {
      assert IsHex(s[32]);
    }
  }

  /** The concatenated map key tells runs and keys apart, although keys may hold colons. */
  lemma {:induction false} MapKeyInjective(run: string, key: string, other: string, otherKey: string)
    requires IsRunId(run) && IsRunId(other) && MapKey(run, key) == MapKey(other, otherKey)
    ensures run == other && key == otherKey
  {
    RunIdSize(run);
    RunIdSize(other);
    var m := MapKey(run, key);
    assert m[|run|] == ':' && m[|other|] == ':';
    assert run == m[..|run|] && other == m[..|other|];
    assert forall i | 0 <= i < |run| :: m[i] == run[i];
    assert forall i | 0 <= i < |other| :: m[i] == other[i];
    assert key == m[|run| + 1..] && otherKey == m[|other| + 1..];
  }

  type Meta = map<string, Json>

  datatype Record = Record(runId: string, version: nat, content: string, meta: Meta, hash: string)

  datatype Error = InvalidRunId | InvalidKey | BadContent | IdempotencyConflict | NotFound

  /** JSON decoding with numbers kept as text, and SHA-256. */
  datatype Codec = Codec(decode: string -> Option<Json>, digest: string -> string)

  predicate SameContent(codec: Codec, left: string, right: string) {
    codec.decode(left).Some? && codec.decode(left) == codec.decode(right)
  }

  function WithHash(meta: Meta, hash: string): Meta {
    meta["content_hash" := Text(hash)]
  }

  predicate HasText(meta: Meta, name: string) {
    name in meta && meta[name].Text? && meta[name].s != ""
  }

  function ExtractHash(codec: Codec, content: string, meta: Meta): string {
    if HasText(meta, "content_hash") then meta["content_hash"].s
    else if HasText(meta, "hash") then meta["hash"].s
    else codec.digest(content)
  }

  /** What a reader extracts is the hash of the bytes that were stored, even where the
      database hands back the content spelled differently. */
  lemma {:induction false} ExtractedIsStored(codec: Codec, raw: string, readBack: string, meta: Meta)
    requires codec.digest(raw) != ""
    ensures ExtractHash(codec, readBack, WithHash(meta, codec.digest(raw))) == codec.digest(raw)
  {
  }

  predicate KeyOk(key: string) {
    Trim(key) != "" && |key| <= 255
  }

  function RecordFor(codec: Codec, run: string, version: nat, content: string, meta: Meta): Record {
    Record(run, version, content, WithHash(meta, codec.digest(content)), codec.digest(content))
  }

  class MemoryStore {
    var records: map<string, seq<Record>>
    var keys: map<string, Record>

    /** Versions count up from one, and a key's record is the one the log holds. */
    ghost predicate Valid()
      reads this
    {
      && (forall run, i | run in records && 0 <= i < |records[run]| ::
            records[run][i].version == i + 1 && records[run][i].runId == run)
      && (forall k | k in keys :: InLog(keys[k]))
    }

    ghost predicate InLog(r: Record)
      reads this
    {
      r.runId in records && 0 < r.version <= |records[r.runId]| && records[r.runId][r.version - 1] == r
    }

    function Log(run: string): seq<Record>
      reads this
    {
      if run in records then records[run] else []
    }

    function Owned(run: string, key: string): Option<Record>
      reads this
    {
      if MapKey(run, key) in keys then Some(keys[MapKey(run, key)]) else None
    }

    constructor ()
      ensures Valid() && forall run :: Log(run) == []
      ensures forall run, key :: Owned(run, key) == None
    {
      records, keys := map[], map[];
    }

    /** A new key appends exactly one version to its own run; a known key changes nothing
        and is answered with the record it owns, if the content is the same. No other run,
        and no other key of this run, is touched. */
    method StoreWithKey(codec: Codec, run: string, key: string, content: string, meta: Meta)
      returns (out: Result<Record, Error>)
      requires Valid()
      modifies this
      ensures Valid()
      ensures forall other | other != run :: Log(other) == old(Log(other))
      ensures forall other, k | IsRunId(other) && (other != run || k != key) :: Owned(other, k) == old(Owned(other, k))
      ensures if !IsRunId(run) then out == Err(InvalidRunId) && unchanged(this)
              else if !KeyOk(key) then out == Err(InvalidKey) && unchanged(this)
              else if codec.decode(content).None? then out == Err(BadContent) && unchanged(this)
              else if old(Owned(run, key)).Some? then
                && unchanged(this)
                && out == if SameContent(codec, old(Owned(run, key)).value.content, content)
                          then Ok(old(Owned(run, key)).value) else Err(IdempotencyConflict)
              else
                && out == Ok(RecordFor(codec, run, |old(Log(run))| + 1, content, meta))
                && Log(run) == old(Log(run)) + [out.value]
                && Owned(run, key) == Some(out.value)
    {
      if !IsRunId(run) {
        return Err(InvalidRunId);
      }
      if !KeyOk(key) {
        return Err(InvalidKey);
      }
      if codec.decode(content).None? {
        return Err(BadContent);
      }
      var mapKey := MapKey(run, key);
      if mapKey in keys {
        return if SameContent(codec, keys[mapKey].content, content) then Ok(keys[mapKey]) else Err(IdempotencyConflict);
      }
      var record := Append(codec, run, content, meta);
      keys := keys[mapKey := record];
      forall other, k | IsRunId(other) && (other != run || k != key) ensures Owned(other, k) == old(Owned(other, k)) {
        if MapKey(other, k) == mapKey {
          MapKeyInjective(other, k, run, key);
        }
      }
      return Ok(record);
    }

    method Append(codec: Codec, run: string, content: string, meta: Meta) returns (record: Record)
      requires Valid()
      modifies this`records
      ensures Valid()
      ensures record == RecordFor(codec, run, |old(Log(run))| + 1, content, meta)
      ensures Log(run) == old(Log(run)) + [record] && InLog(record)
      ensures forall other | other != run :: Log(other) == old(Log(other))
    {
      var history := Log(run);
      record := RecordFor(codec, run, |history| + 1, content, meta);
      records := records[run := history + [record]];
      forall k | k in keys ensures InLog(keys[k]) {
        assert old(InLog(keys[k]));
      }
    }

    method Store(codec: Codec, run: string, content: string, meta: Meta) returns (out: Result<Record, Error>)
      requires Valid()
      modifies this`records
      ensures Valid()
      ensures forall other | other != run :: Log(other) == old(Log(other))
      ensures if !IsRunId(run) then out == Err(InvalidRunId) && unchanged(this)
              else if codec.decode(content).None? then out == Err(BadContent) && unchanged(this)
              else out == Ok(RecordFor(codec, run, |old(Log(run))| + 1, content, meta)) && Log(run) == old(Log(run)) + [out.value]
    {
      if !IsRunId(run) {
        return Err(InvalidRunId);
      }
      if codec.decode(content).None? {
        return Err(BadContent);
      }
      var record := Append(codec, run, content, meta);
      return Ok(record);
    }

    /** The scan by version number finds the entry at that position. */
    method Get(run: string, version: int) returns (out: Result<Record, Error>)
      requires Valid()
      ensures out == if !IsRunId(run) then Err(InvalidRunId)
                     else if 0 < version <= |Log(run)| then Ok(Log(run)[version - 1]) else Err(NotFound)
    {
      if !IsRunId(run) {
        return Err(InvalidRunId);
      }
      var history := Log(run);
      for i := 0 to |history|
        invariant !(0 < version <= i)
      {
        if history[i].version == version {
          return Ok(history[i]);
        }
      }
      return Err(NotFound);
    }

    /** The latest record has the highest version. */
    method GetLatest(run: string) returns (out: Result<Record, Error>)
      requires Valid()
      ensures !IsRunId(run) ==> out == Err(InvalidRunId)
      ensures IsRunId(run) && Log(run) == [] ==> out == Err(NotFound)
      ensures IsRunId(run) && Log(run) != [] ==>
        out.Ok? && out.value in Log(run) && forall r | r in Log(run) :: r.version <= out.value.version
    {
      if !IsRunId(run) {
        return Err(InvalidRunId);
      }
      var history := Log(run);
      if |history| == 0 {
        return Err(NotFound);
      }
      return Ok(history[|history| - 1]);
    }
  }
}
