/** The completion manifest of internal/backup/backup.go, shared by the local directory and the blob container. */
module Manifests {
  import opened Text

  type Bytes = string

  /** SHA-256 is ideal: equal digests come from equal contents. NoDigest is the empty string. */
  datatype Digest = NoDigest | Sha(of: Bytes) | OtherDigest(text: string)

  const MANIFEST_VERSION := 1
  const MANIFEST_SUFFIX := ".manifest.json"

  /** `published` is None for the zero time. */
  datatype Manifest = Manifest(version: int, deployment: string, file: string, size: int, digest: Digest,
                               published: Option<int>)

  /** What VerifyPublished compares. */
  predicate Describes(m: Manifest, deployment: string, name: string, bytes: Bytes) {
    && m.version == MANIFEST_VERSION && m.file == name && m.deployment == deployment
    && m.size == |bytes| && m.digest == Sha(bytes)
  }
}
