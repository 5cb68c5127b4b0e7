/**
  The TPM wire structures of section 10 of TPM 2.0 Library Part 2 that the PCR commands exchange: fixed-capacity
  arrays with a count, as the TSS declares them. Any value of these types may come back from a backend.
 */
module TpmStructures {
  import opened Common

  type Uint16 = x: nat | x < 0x1_0000
  type Uint32 = x: nat | x < 0x1_0000_0000

  type AlgId = Uint16
  const ALG_ERROR: AlgId := 0x0000
  const ALG_SHA1: AlgId := 0x0004
  const ALG_SHA256: AlgId := 0x000b
  const ALG_SHA384: AlgId := 0x000c
  const ALG_SHA512: AlgId := 0x000d

  const PCR_SELECT_MAX := 4
  const NUM_PCR_BANKS := 16
  const DIGEST_LIST_CAPACITY := 8
  const DIGEST_BUFFER_SIZE := 64
  const EVENT_BUFFER_SIZE := 1024

  function Zeros(n: nat): (z: seq<byte>)
    ensures |z| == n
  {
    seq(n, _ => 0)
  }

  type SelectBits = s: seq<bv8> | |s| == PCR_SELECT_MAX witness [0, 0, 0, 0]
  type DigestBuffer = s: seq<byte> | |s| == DIGEST_BUFFER_SIZE witness Zeros(DIGEST_BUFFER_SIZE)
  type EventBuffer = s: seq<byte> | |s| == EVENT_BUFFER_SIZE witness Zeros(EVENT_BUFFER_SIZE)

  datatype PcrSelect = PcrSelect(hash: AlgId, sizeofSelect: byte, pcrSelect: SelectBits)
  const EMPTY_SELECT := PcrSelect(ALG_ERROR, 0, [0, 0, 0, 0])

  type PcrSelects = s: seq<PcrSelect> | |s| == NUM_PCR_BANKS witness seq(NUM_PCR_BANKS, _ => EMPTY_SELECT)
  datatype PcrSelectionList = PcrSelectionList(count: Uint32, pcrSelections: PcrSelects)

  datatype HashDigest = HashDigest(hashAlg: AlgId, digest: DigestBuffer)
  const EMPTY_HASH_DIGEST := HashDigest(ALG_ERROR, Zeros(DIGEST_BUFFER_SIZE))

  type HashDigests = s: seq<HashDigest> | |s| == NUM_PCR_BANKS witness seq(NUM_PCR_BANKS, _ => EMPTY_HASH_DIGEST)
  datatype DigestValueList = DigestValueList(count: Uint32, digests: HashDigests)

  datatype SizedDigest = SizedDigest(size: Uint16, buffer: DigestBuffer)
  const EMPTY_SIZED_DIGEST := SizedDigest(0, Zeros(DIGEST_BUFFER_SIZE))

  type SizedDigests = s: seq<SizedDigest> | |s| ==
    DIGEST_LIST_CAPACITY witness seq(DIGEST_LIST_CAPACITY, _ => EMPTY_SIZED_DIGEST)
  datatype DigestList = DigestList(count: Uint32, digests: SizedDigests)

  datatype SizedEvent = SizedEvent(size: Uint16, buffer: EventBuffer)
}
