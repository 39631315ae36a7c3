/** Cutting an envelope into the chunks and hashes its manifest names. */
module Objects {
  import opened Types
  import opened Chunking
  import opened Rosters
  import opened Protocol

  datatype ObjectPolicy = ObjectPolicy(namespace: string, epoch: nat, targets: seq<MemberId>, expiresAt: nat, hopLimit: nat)

  function ManifestOf(origin: MemberId, sequence: nat, policy: ObjectPolicy, bytes: Bytes): Manifest {
    var chunks := Chunks(bytes, CHUNK_BYTES);
    Manifest(origin, sequence, policy.namespace, policy.epoch, Sorted(policy.targets), policy.expiresAt, policy.hopLimit, |bytes|,
             seq(|chunks|, i requires 0 <= i < |chunks| => Digest(chunks[i])))
  }

  predicate InRange(sequence: nat, policy: ObjectPolicy) {
    && 0 < sequence <= MAX_LOGICAL_TIME && 0 < policy.epoch <= MAX_LOGICAL_TIME && 0 < policy.expiresAt <= MAX_LOGICAL_TIME
    && 0 < policy.hopLimit <= 16 && 0 < |policy.targets| <= MAX_TARGETS && DuplicateFree(policy.targets)
  }

  function FromOpaque(origin: MemberId, sequence: nat, policy: ObjectPolicy, bytes: Bytes): Result<PreparedObject, DurableError> {
    if bytes == [] || |bytes| > MAX_OBJECT_BYTES then Err(InvalidInput)
    else if !ManifestOf(origin, sequence, policy, bytes).Valid() then Err(InvalidInput)
    else Ok(PreparedObject(ManifestOf(origin, sequence, policy, bytes), Chunks(bytes, CHUNK_BYTES)))
  }

  /** As many hashes as chunks of 1024 bytes cover the content. */
  lemma HashCount(bytes: Bytes)
    requires bytes != []
    ensures |Chunks(bytes, CHUNK_BYTES)| == (|bytes| + CHUNK_BYTES - 1) / CHUNK_BYTES > 0
  {
    ChunkCount(bytes, CHUNK_BYTES);
  }

  /**
   * An envelope is accepted exactly when it is nonempty, within 64 KiB and its policy is in range with distinct targets;
   * the prepared object then has every chunk its manifest names, its chunks join to the envelope, and its targets are sorted.
   */
  lemma FromOpaqueExact(origin: MemberId, sequence: nat, policy: ObjectPolicy, bytes: Bytes)
    ensures FromOpaque(origin, sequence, policy, bytes).Ok? <==>
              0 < |bytes| <= MAX_OBJECT_BYTES && InRange(sequence, policy)
    ensures FromOpaque(origin, sequence, policy, bytes).Ok? ==>
      var p := FromOpaque(origin, sequence, policy, bytes).value;
      && p.Valid() && Flatten(p.chunks) == bytes && 0 < |p.chunks| <= MAX_CHUNKS
      && p.manifest.origin == origin && p.manifest.sequence == sequence && p.manifest.targets == Sorted(policy.targets)
      && p.manifest.expiresAt == policy.expiresAt && p.manifest.hopLimit == policy.hopLimit && p.manifest.epoch == policy.epoch
      && p.manifest.namespace == policy.namespace && p.manifest.contentLen == |bytes|
  {
    if bytes != [] {
      HashCount(bytes);
      SortedStrictly(policy.targets);
      var m := ManifestOf(origin, sequence, policy, bytes);
      assert |m.targets| == |policy.targets|;
      ChunksJoin(bytes, CHUNK_BYTES);
      forall i | 0 <= i < |Chunks(bytes, CHUNK_BYTES)| ensures m.Fits(i, Chunks(bytes, CHUNK_BYTES)[i]) {
        ChunkAt(bytes, CHUNK_BYTES, i);
        ChunkCount(bytes, CHUNK_BYTES);
      }
    }
  }
}
